/** The `bookings` table and the queries `BookingRepository` declares over it. The table keeps
    rows in insertion order, so identity-generated ids ascend along it. */
module BookingRepository {
  import opened Wrappers
  import opened Entities
  import opened Seqs

  predicate IdsAscending(rows: seq<Booking>) {
    forall i, j :: 0 <= i < j < |rows| ==> rows[i].id < rows[j].id
  }

  predicate IdsDescending(rows: seq<Booking>) {
    forall i, j :: 0 <= i < j < |rows| ==> rows[i].id > rows[j].id
  }

  /** `save` of an entity whose id exists: that row takes the new values. */
  function ReplaceById(rows: seq<Booking>, b: Booking): (r: seq<Booking>)
    ensures |r| == |rows|
  {
    seq(|rows|, i requires 0 <= i < |rows| => if rows[i].id == b.id then b else rows[i])
  }

  class BookingTable {
    var rows: seq<Booking>
    var nextId: int

    ghost predicate Valid()
      reads this
    {
      IdsAscending(rows) && forall i :: 0 <= i < |rows| ==> rows[i].id < nextId
    }

    constructor ()
      ensures Valid() && rows == []
    {
      rows := [];
      nextId := 1;
    }

    /** `save` of a new entity: the identity column assigns the next id. */
    method Insert(b: Booking) returns (saved: Booking)
      requires Valid()
      modifies this
      ensures Valid()
      ensures saved == b.(id := old(nextId))
      ensures rows == old(rows) + [saved] && nextId == old(nextId) + 1
    {
      saved := b.(id := nextId);
      rows := rows + [saved];
      nextId := nextId + 1;
    }

    /** `save` of an existing entity. */
    method Update(b: Booking)
      requires Valid()
      modifies this
      ensures Valid()
      ensures rows == ReplaceById(old(rows), b) && nextId == old(nextId)
    {
      rows := ReplaceById(rows, b);
    }
  }

  /** `findById`. */
  function FindById(rows: seq<Booking>, id: int): (r: Option<Booking>)
    ensures r.Some? ==> r.value in rows && r.value.id == id
    ensures r.None? <==> forall b :: b in rows ==> b.id != id
  {
    First(rows, (b: Booking) => b.id == id)
  }

  /** `findByBookingReference` and `findByBookingReferenceWithDetails` (the same `WHERE`; the
      fetch joins only load the referenced user and room). */
  function FindByBookingReference(rows: seq<Booking>, reference: string): (r: Option<Booking>)
    ensures r.Some? ==> r.value in rows && r.value.bookingReference == reference
    ensures r.None? <==> forall b :: b in rows ==> b.bookingReference != reference
  {
    First(rows, HasReference(reference))
  }

  /** The condition `WHERE b.bookingReference = :reference`. */
  function HasReference(reference: string): Booking -> bool {
    (b: Booking) => b.bookingReference == reference
  }

  /** `BookingPaymentProjection`. */
  datatype PaymentProjection = PaymentProjection(
    id: int, bookingReference: string, paymentStatus: Option<PaymentStatus>, totalPrice: Option<Cents>)

  /** `findPaymentProjectionByBookingReference`: the same row as the reference lookup, narrowed
      to four columns. */
  function FindPaymentProjectionByBookingReference(rows: seq<Booking>, reference: string): (r: Option<PaymentProjection>)
    ensures r.Some? <==> FindByBookingReference(rows, reference).Some?
    ensures r.Some? ==> var b := FindByBookingReference(rows, reference).value;
                        r.value == PaymentProjection(b.id, b.bookingReference, b.paymentStatus, b.totalPrice)
  {
    match FindByBookingReference(rows, reference)
    case None => None
    case Some(b) => Some(PaymentProjection(b.id, b.bookingReference, b.paymentStatus, b.totalPrice))
  }

  /** The `WHERE` clause of `isRoomAvailable`: the booking is of the room and one of its
      endpoints lies between the requested dates, both bounds included. A null column makes the
      comparison unknown, so such an endpoint never matches. */
  predicate EndpointInRange(b: Booking, roomId: int, checkIn: Date, checkOut: Date) {
    && b.roomId == Some(roomId)
    && ((b.checkInDate.Some? && checkIn <= b.checkInDate.value <= checkOut)
        || (b.checkOutDate.Some? && checkIn <= b.checkOutDate.value <= checkOut))
  }

  /** `COUNT(b)` over the rows the clause selects. */
  function CountInRange(rows: seq<Booking>, roomId: int, checkIn: Date, checkOut: Date): (n: nat)
    ensures n <= |rows|
    ensures n == 0 <==> forall b :: b in rows ==> !EndpointInRange(b, roomId, checkIn, checkOut)
  {
    if rows == [] then 0
    else (if EndpointInRange(rows[0], roomId, checkIn, checkOut) then 1 else 0)
         + CountInRange(rows[1..], roomId, checkIn, checkOut)
  }

  /** `isRoomAvailable`: `CASE WHEN COUNT(b) = 0 THEN true ELSE false END`. */
  function IsRoomAvailable(rows: seq<Booking>, roomId: int, checkIn: Date, checkOut: Date): (ok: bool)
    ensures ok <==> forall b :: b in rows ==> !EndpointInRange(b, roomId, checkIn, checkOut)
  {
    CountInRange(rows, roomId, checkIn, checkOut) == 0
  }

  /** The clause has no status condition: a cancelled or checked-out booking whose endpoint falls
      in the range still makes the room unavailable. */
  lemma CancelledBookingStillBlocks(rows: seq<Booking>, b: Booking, roomId: int, checkIn: Date, checkOut: Date)
    requires b in rows && b.bookingStatus in {Some(CANCELLED), Some(CHECKED_OUT)}
    requires EndpointInRange(b, roomId, checkIn, checkOut)
    ensures !IsRoomAvailable(rows, roomId, checkIn, checkOut)
  {
  }

  /** Changing any booking's status never changes the answer. */
  lemma {:induction false} AvailabilityIgnoresStatus(rows: seq<Booking>, i: nat, s: Option<BookingStatus>, roomId: int, checkIn: Date, checkOut: Date)
    requires i < |rows|
    ensures IsRoomAvailable(rows[i := rows[i].(bookingStatus := s)], roomId, checkIn, checkOut)
            == IsRoomAvailable(rows, roomId, checkIn, checkOut)
  {
    var rows' := rows[i := rows[i].(bookingStatus := s)];
    var e := (b: Booking) => EndpointInRange(b, roomId, checkIn, checkOut);
    assert e(rows'[i]) == e(rows[i]);
    forall k | 0 <= k < |rows| ensures e(rows'[k]) == e(rows[k]) {
    }
    if IsRoomAvailable(rows, roomId, checkIn, checkOut) {
      forall b | b in rows' ensures !e(b) {
        var k :| 0 <= k < |rows'| && rows'[k] == b;
        assert rows[k] in rows;
      }
    } else {
      var b :| b in rows && e(b);
      var k :| 0 <= k < |rows| && rows[k] == b;
      assert rows'[k] in rows';
    }
  }

  /** Bookings of other rooms never affect the answer. */
  lemma OtherRoomsIrrelevant(rows: seq<Booking>, others: seq<Booking>, roomId: int, checkIn: Date, checkOut: Date)
    requires forall b :: b in others ==> b.roomId != Some(roomId)
    ensures IsRoomAvailable(rows + others, roomId, checkIn, checkOut) == IsRoomAvailable(rows, roomId, checkIn, checkOut)
  {
    assert forall b :: b in rows + others ==> b in rows || b in others;
  }

  /** A request lying strictly inside an existing booking touches neither of its endpoints and
      is reported available. */
  lemma ContainedRequestReportedAvailable(b: Booking, roomId: int, checkIn: Date, checkOut: Date)
    requires b.roomId == Some(roomId) && b.checkInDate.Some? && b.checkOutDate.Some?
    requires b.checkInDate.value < checkIn && checkOut < b.checkOutDate.value
    ensures IsRoomAvailable([b], roomId, checkIn, checkOut)
  {
  }

  /** Same-day turnover conflicts: a booking that checks out on the requested check-in day
      blocks it. */
  lemma SameDayTurnoverBlocks(rows: seq<Booking>, b: Booking, roomId: int, checkIn: Date, checkOut: Date)
    requires b in rows && b.roomId == Some(roomId) && b.checkOutDate == Some(checkIn) && checkIn <= checkOut
    ensures !IsRoomAvailable(rows, roomId, checkIn, checkOut)
  {
    assert EndpointInRange(b, roomId, checkIn, checkOut);
  }

  /** The `WHERE` of `findBookingHistoryByUserId`. The select list reads `b.room.*`, an implicit
      inner join, so a booking without a room is not listed. */
  predicate InHistoryOf(b: Booking, userId: int) {
    b.userId == Some(userId) && b.roomId.Some?
  }

  /** `findBookingHistoryByUserId`: the user's bookings that have a room, `ORDER BY b.id DESC`. */
  function FindBookingHistoryByUserId(rows: seq<Booking>, userId: int): (r: seq<Booking>)
    ensures forall b :: b in r ==> b in rows && b.userId == Some(userId) && b.roomId.Some?
    ensures forall b :: b in rows && b.userId == Some(userId) && b.roomId.Some? ==> b in r
    ensures |r| <= |rows|
  {
    Reverse(Filter(rows, (b: Booking) => InHistoryOf(b, userId)))
  }

  /** Over a table whose ids ascend, the history is newest first. */
  lemma HistoryNewestFirst(rows: seq<Booking>, userId: int)
    requires IdsAscending(rows)
    ensures IdsDescending(FindBookingHistoryByUserId(rows, userId))
  {
    var p := (b: Booking) => InHistoryOf(b, userId);
    FilterPairwise(rows, p, (a: Booking, b: Booking) => a.id < b.id);
    var f := Filter(rows, p);
    var r := Reverse(f);
    forall i, j | 0 <= i < j < |r| ensures r[i].id > r[j].id {
      assert r[i] == f[|f| - 1 - i] && r[j] == f[|f| - 1 - j];
    }
  }

  /** `findAll(Sort.by(DESC, "id"))`. */
  function FindAllNewestFirst(rows: seq<Booking>): (r: seq<Booking>)
    ensures IdsAscending(rows) ==> IdsDescending(r)
    ensures forall b :: b in r <==> b in rows
  {
    Reverse(rows)
  }
}
