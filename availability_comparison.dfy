/** The two availability rules side by side: `isRoomAvailable`, which guards booking creation,
    and the `NOT IN` subquery of `findAvailableRooms`, which drives room search. They agree on
    the usual cases and differ on containment and on inactive bookings. */
module AvailabilityComparison {
  import opened Wrappers
  import opened Entities
  import BookingRepository
  import RoomRepository

  /** A well-formed booking of the room: both dates present and in order. */
  predicate WellFormedStay(b: Booking) {
    b.checkInDate.Some? && b.checkOutDate.Some? && b.checkInDate.value <= b.checkOutDate.value
  }

  /** A request lies strictly inside an existing stay. */
  predicate Contains(b: Booking, checkIn: Date, checkOut: Date) {
    b.checkInDate.Some? && b.checkOutDate.Some? && b.checkInDate.value < checkIn && checkOut < b.checkOutDate.value
  }

  /** For a well-formed stay and an ordered request, the search's overlap test is exactly the
      booking rule's endpoint test plus containment. */
  lemma OverlapIsEndpointOrContainment(b: Booking, roomId: int, checkIn: Date, checkOut: Date)
    requires WellFormedStay(b) && b.roomId == Some(roomId) && checkIn <= checkOut
    ensures RoomRepository.DatesOverlap(b, checkIn, checkOut)
            <==> BookingRepository.EndpointInRange(b, roomId, checkIn, checkOut) || Contains(b, checkIn, checkOut)
  {
  }

  /** Where every booking of the room is active and well formed, a room the search lists is
      also one that booking creation accepts: search is the stricter rule. */
  lemma SearchStricterOnActiveBookings(bookings: seq<Booking>, room: Room, checkIn: Date, checkOut: Date, roomType: Option<RoomType>)
    requires checkIn <= checkOut
    requires forall b :: b in bookings && b.roomId == Some(room.id) ==>
               WellFormedStay(b) && RoomRepository.ActiveStatus(b.bookingStatus)
    requires room in RoomRepository.FindAvailableRooms([room], bookings, checkIn, checkOut, roomType)
    ensures BookingRepository.IsRoomAvailable(bookings, room.id, checkIn, checkOut)
  {
    forall b | b in bookings ensures !BookingRepository.EndpointInRange(b, room.id, checkIn, checkOut) {
      if b.roomId == Some(room.id) {
        OverlapIsEndpointOrContainment(b, room.id, checkIn, checkOut);
      }
    }
  }

  /** Containment: a request strictly inside an active stay is accepted by booking creation
      while search hides the room. */
  lemma ContainmentSplitsTheRules()
    ensures var room := Room(1, Some(101), SINGLE, Some(30000), Some(1), None, None, None);
            var stay := Booking(1, Some(7), Some(1), Some(10), Some(20), Some(300000), "ABCDEFGHIJ", Some(BOOKED), Some(PENDING), 0);
            && BookingRepository.IsRoomAvailable([stay], 1, 12, 15)
            && RoomRepository.FindAvailableRooms([room], [stay], 12, 15, None) == []
  {
    var room := Room(1, Some(101), SINGLE, Some(30000), Some(1), None, None, None);
    var stay := Booking(1, Some(7), Some(1), Some(10), Some(20), Some(300000), "ABCDEFGHIJ", Some(BOOKED), Some(PENDING), 0);
    assert RoomRepository.BlocksSearch(stay, 12, 15);
    assert !BookingRepository.EndpointInRange(stay, 1, 12, 15);
    assert [room][0] == room;
    RoomRepository.NothingFreeNothingListed([room], [stay], 12, 15, None);
  }

  /** Cancellation: a cancelled stay still blocks booking creation while search lists the room. */
  lemma CancellationSplitsTheRules()
    ensures var room := Room(1, Some(101), SINGLE, Some(30000), Some(1), None, None, None);
            var stay := Booking(1, Some(7), Some(1), Some(10), Some(20), Some(300000), "ABCDEFGHIJ", Some(CANCELLED), Some(REFUNDED), 0);
            && !BookingRepository.IsRoomAvailable([stay], 1, 10, 15)
            && RoomRepository.FindAvailableRooms([room], [stay], 10, 15, None) == [room]
  {
    var room := Room(1, Some(101), SINGLE, Some(30000), Some(1), None, None, None);
    var stay := Booking(1, Some(7), Some(1), Some(10), Some(20), Some(300000), "ABCDEFGHIJ", Some(CANCELLED), Some(REFUNDED), 0);
    assert BookingRepository.EndpointInRange(stay, 1, 10, 15);
    assert [stay][0] == stay;
    RoomRepository.NoTypeListsEveryFreeRoom([room], [stay], 10, 15);
  }
}
