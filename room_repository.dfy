/** The `rooms` table with the constraints enforced when a room is saved, and the queries
    `RoomRepository` declares: the availability search (entity and projection forms) and the
    free-text search. Queries without `ORDER BY` return rows in table order here. */
module RoomRepository {
  import opened Wrappers
  import opened Entities
  import opened Exceptions
  import opened Seqs
  import opened Text

  predicate RoomIdsAscending(rows: seq<Room>) {
    forall i, j :: 0 <= i < j < |rows| ==> rows[i].id < rows[j].id
  }

  /** Some row already uses the non-null room number `n`. */
  predicate NumberInUse(rows: seq<Room>, n: Option<int>) {
    n.Some? && exists i :: 0 <= i < |rows| && rows[i].roomNumber == n
  }

  /** Some row other than `id` already uses the non-null room number `n`. */
  predicate NumberTaken(rows: seq<Room>, n: Option<int>, id: int) {
    n.Some? && exists i :: 0 <= i < |rows| && rows[i].id != id && rows[i].roomNumber == n
  }

  function ReplaceRoom(rows: seq<Room>, r: Room): (res: seq<Room>)
    ensures |res| == |rows|
    ensures forall i :: 0 <= i < |rows| ==> res[i] == if rows[i].id == r.id then r else rows[i]
  {
    seq(|rows|, i requires 0 <= i < |rows| => if rows[i].id == r.id then r else rows[i])
  }

  class RoomTable {
    var rows: seq<Room>
    var nextId: int

    /** Ids ascend in insertion order and stay below the identity counter; every stored row
        satisfies the bean constraints and the unique room number. */
    ghost predicate Valid()
      reads this
    {
      && RoomIdsAscending(rows)
      && (forall i :: 0 <= i < |rows| ==> rows[i].id < nextId)
      && (forall i :: 0 <= i < |rows| ==> RoomValid(rows[i]))
      && UniqueRoomNumbers(rows)
    }

    constructor ()
      ensures Valid() && rows == []
    {
      rows := [];
      nextId := 1;
    }

    /** `save` of a new room: bean validation first, then the unique number, then the insert
        with the next identity value. */
    method Insert(r: Room) returns (res: Result<Room, Exception>)
      requires Valid()
      modifies this
      ensures Valid()
      ensures !RoomValid(r) ==> res.Err? && res.error.ConstraintViolationException?
      ensures RoomValid(r) && NumberInUse(old(rows), r.roomNumber) ==>
                res.Err? && res.error.DataIntegrityViolationException?
      ensures res.Ok? <==> RoomValid(r) && !NumberInUse(old(rows), r.roomNumber)
      ensures res.Ok? ==> res.value == r.(id := old(nextId)) && rows == old(rows) + [res.value]
                          && nextId == old(nextId) + 1
      ensures res.Err? ==> rows == old(rows) && nextId == old(nextId)
    {
      if !RoomValid(r) {
        return Err(ConstraintViolationException("Validation failed for room"));
      }
      if NumberInUse(rows, r.roomNumber) {
        return Err(DataIntegrityViolationException("duplicate room_number"));
      }
      var saved := r.(id := nextId);
      rows := rows + [saved];
      nextId := nextId + 1;
      res := Ok(saved);
    }

    /** `save` of a room that exists: the same checks, then the row takes the new values. */
    method Update(r: Room) returns (res: Result<Room, Exception>)
      requires Valid()
      modifies this
      ensures Valid()
      ensures res.Ok? <==> RoomValid(r) && !NumberTaken(old(rows), r.roomNumber, r.id)
      ensures !RoomValid(r) ==> res.Err? && res.error.ConstraintViolationException?
      ensures RoomValid(r) && NumberTaken(old(rows), r.roomNumber, r.id) ==>
                res.Err? && res.error.DataIntegrityViolationException?
      ensures res.Ok? ==> res.value == r && rows == ReplaceRoom(old(rows), r)
      ensures res.Err? ==> rows == old(rows)
      ensures nextId == old(nextId)
    {
      if !RoomValid(r) {
        return Err(ConstraintViolationException("Validation failed for room"));
      }
      if NumberTaken(rows, r.roomNumber, r.id) {
        return Err(DataIntegrityViolationException("duplicate room_number"));
      }
      var old_rows := rows;
      rows := ReplaceRoom(rows, r);
      forall i, j | 0 <= i < j < |rows| && rows[i].roomNumber.Some?
        ensures rows[i].roomNumber != rows[j].roomNumber
      {
        if old_rows[i].id != r.id && old_rows[j].id != r.id {
        } else if old_rows[i].id == r.id {
          assert old_rows[j].id != r.id;
        } else {
          assert old_rows[i].id != r.id;
        }
      }
      res := Ok(r);
    }

    /** `delete`: the row with this id is gone, the others keep their order. */
    method Delete(id: int)
      requires Valid()
      modifies this
      ensures Valid()
      ensures rows == Filter(old(rows), (x: Room) => x.id != id) && nextId == old(nextId)
      ensures forall x :: x in rows ==> x.id != id
    {
      var kept := Filter(rows, (x: Room) => x.id != id);
      PairwiseOrderedDistinct(rows);
      FilterPairwise(rows, (x: Room) => x.id != id, OrderedDistinct);
      PairwiseOrderedDistinct(kept);
      assert forall i :: 0 <= i < |kept| ==> kept[i] in rows;
      rows := kept;
    }
  }

  /** Ascending ids and distinct room numbers, as one relation between a row and each later row. */
  predicate OrderedDistinct(a: Room, b: Room) {
    a.id < b.id && (a.roomNumber.Some? ==> a.roomNumber != b.roomNumber)
  }

  lemma PairwiseOrderedDistinct(rows: seq<Room>)
    ensures Pairwise(rows, OrderedDistinct) <==> RoomIdsAscending(rows) && UniqueRoomNumbers(rows)
  {
  }

  /** `findById`. */
  function FindRoomById(rows: seq<Room>, id: int): (r: Option<Room>)
    ensures r.Some? ==> r.value in rows && r.value.id == id
    ensures r.None? <==> forall x :: x in rows ==> x.id != id
  {
    First(rows, (x: Room) => x.id == id)
  }

  // ---------------------------------------------------------------- availability search

  /** `b.bookingStatus IN ('BOOKED', 'CHECKED_IN')`; a null status is not in the list. */
  predicate ActiveStatus(s: Option<BookingStatus>) {
    s == Some(BOOKED) || s == Some(CHECKED_IN)
  }

  /** `:checkInDate <= b.checkOutDate AND :checkOutDate >= b.checkInDate`: the closed intervals
      meet. A null date makes the comparison unknown, which the `WHERE` treats as false. */
  predicate DatesOverlap(b: Booking, checkIn: Date, checkOut: Date) {
    && b.checkInDate.Some? && b.checkOutDate.Some?
    && checkIn <= b.checkOutDate.value && checkOut >= b.checkInDate.value
  }

  /** The subquery's `WHERE`. */
  predicate BlocksSearch(b: Booking, checkIn: Date, checkOut: Date) {
    DatesOverlap(b, checkIn, checkOut) && ActiveStatus(b.bookingStatus)
  }

  /** The rows the subquery's `WHERE` selects. */
  function BlockingBookings(bookings: seq<Booking>, checkIn: Date, checkOut: Date): (r: seq<Booking>)
    ensures forall b :: b in r <==> b in bookings && BlocksSearch(b, checkIn, checkOut)
  {
    Filter(bookings, (b: Booking) => BlocksSearch(b, checkIn, checkOut))
  }

  /** The subquery `SELECT b.room.id ...`: the room column of every blocking booking, nulls
      included. */
  function BlockedRoomIds(bookings: seq<Booking>, checkIn: Date, checkOut: Date): (r: seq<Option<int>>)
    ensures var blocking := BlockingBookings(bookings, checkIn, checkOut);
            |r| == |blocking| && forall i :: 0 <= i < |r| ==> r[i] == blocking[i].roomId
  {
    Map(BlockingBookings(bookings, checkIn, checkOut), (b: Booking) => b.roomId)
  }

  /** SQL `x NOT IN (values)` in three-valued logic: false when `x` is listed, otherwise unknown
      (`None`) when a null is listed, otherwise true. */
  function SqlNotIn(x: int, values: seq<Option<int>>): (r: Option<bool>)
    ensures r == Some(false) <==> Some(x) in values
    ensures r == Some(true) <==> Some(x) !in values && None !in values
    ensures r == None <==> Some(x) !in values && None in values
  {
    if values == [] then Some(true)
    else
      var rest := SqlNotIn(x, values[1..]);
      assert values == [values[0]] + values[1..];
      if values[0] == Some(x) || rest == Some(false) then Some(false)
      else if values[0].None? || rest.None? then None
      else Some(true)
  }

  /** `:roomType IS NULL OR r.type = :roomType`. */
  predicate TypeMatches(r: Room, roomType: Option<RoomType>) {
    roomType.None? || r.roomType == roomType.value
  }

  /** The outer `WHERE`: the `NOT IN` must be true, not merely not false. */
  predicate SelectedForStay(r: Room, bookings: seq<Booking>, checkIn: Date, checkOut: Date, roomType: Option<RoomType>) {
    SqlNotIn(r.id, BlockedRoomIds(bookings, checkIn, checkOut)) == Some(true) && TypeMatches(r, roomType)
  }

  /** No blocking booking has a null room and none names this room. */
  predicate FreeForStay(id: int, bookings: seq<Booking>, checkIn: Date, checkOut: Date) {
    forall b :: b in bookings && BlocksSearch(b, checkIn, checkOut) ==> b.roomId.Some? && b.roomId.value != id
  }

  lemma SelectedForStayMeaning(r: Room, bookings: seq<Booking>, checkIn: Date, checkOut: Date, roomType: Option<RoomType>)
    ensures SelectedForStay(r, bookings, checkIn, checkOut, roomType)
            <==> FreeForStay(r.id, bookings, checkIn, checkOut) && TypeMatches(r, roomType)
  {
    var ids := BlockedRoomIds(bookings, checkIn, checkOut);
    var blocking := BlockingBookings(bookings, checkIn, checkOut);
    if FreeForStay(r.id, bookings, checkIn, checkOut) {
      forall i | 0 <= i < |ids| ensures ids[i].Some? && ids[i] != Some(r.id) {
        assert blocking[i] in blocking;
      }
    } else {
      var b :| b in bookings && BlocksSearch(b, checkIn, checkOut) && !(b.roomId.Some? && b.roomId.value != r.id);
      assert b in blocking;
      var k :| 0 <= k < |blocking| && blocking[k] == b;
      assert ids[k] == b.roomId;
    }
  }

  /** `findAvailableRooms`: the rooms of the requested type (any type when none is given) that
      no blocking booking names, provided no blocking booking has a null room. */
  function FindAvailableRooms(rooms: seq<Room>, bookings: seq<Booking>, checkIn: Date, checkOut: Date, roomType: Option<RoomType>): (r: seq<Room>)
    ensures forall x :: x in r ==> x in rooms && TypeMatches(x, roomType) && FreeForStay(x.id, bookings, checkIn, checkOut)
    ensures forall x :: x in rooms && TypeMatches(x, roomType) && FreeForStay(x.id, bookings, checkIn, checkOut) ==> x in r
  {
    var r := Filter(rooms, (x: Room) => SelectedForStay(x, bookings, checkIn, checkOut, roomType));
    forall x | x in rooms ensures SelectedForStay(x, bookings, checkIn, checkOut, roomType)
                                  <==> FreeForStay(x.id, bookings, checkIn, checkOut) && TypeMatches(x, roomType) {
      SelectedForStayMeaning(x, bookings, checkIn, checkOut, roomType);
    }
    r
  }

  /** `RoomAvailableProjection`: the room columns without the image. */
  datatype RoomAvailableProjection = RoomAvailableProjection(
    id: int, roomNumber: Option<int>, roomType: RoomType, pricePerNight: Option<Cents>,
    capacity: Option<int>, description: Option<string>, title: Option<string>)

  function Project(r: Room): RoomAvailableProjection {
    RoomAvailableProjection(r.id, r.roomNumber, r.roomType, r.pricePerNight, r.capacity, r.description, r.title)
  }

  /** `findAvailableRoomsProjection`: the same `WHERE` as the entity query, narrowed to seven
      columns, row for row. */
  function FindAvailableRoomsProjection(rooms: seq<Room>, bookings: seq<Booking>, checkIn: Date, checkOut: Date, roomType: Option<RoomType>): (r: seq<RoomAvailableProjection>)
    ensures var e := FindAvailableRooms(rooms, bookings, checkIn, checkOut, roomType);
            |r| == |e| && forall i :: 0 <= i < |e| ==> r[i] == Project(e[i])
  {
    Map(FindAvailableRooms(rooms, bookings, checkIn, checkOut, roomType), Project)
  }

  /** When no room is free for the stay, the search is empty. */
  lemma NothingFreeNothingListed(rooms: seq<Room>, bookings: seq<Booking>, checkIn: Date, checkOut: Date, roomType: Option<RoomType>)
    requires forall x :: x in rooms ==> !FreeForStay(x.id, bookings, checkIn, checkOut)
    ensures FindAvailableRooms(rooms, bookings, checkIn, checkOut, roomType) == []
  {
    forall x | x in rooms ensures !SelectedForStay(x, bookings, checkIn, checkOut, roomType) {
      SelectedForStayMeaning(x, bookings, checkIn, checkOut, roomType);
    }
    FilterNone(rooms, (x: Room) => SelectedForStay(x, bookings, checkIn, checkOut, roomType));
  }

  /** One active booking whose room column is null empties every search whose dates it
      overlaps: `NOT IN` over a list holding a null is never true. */
  lemma NullRoomBlocksEverything(rooms: seq<Room>, bookings: seq<Booking>, b: Booking, checkIn: Date, checkOut: Date, roomType: Option<RoomType>)
    requires b in bookings && b.roomId.None? && BlocksSearch(b, checkIn, checkOut)
    ensures FindAvailableRooms(rooms, bookings, checkIn, checkOut, roomType) == []
  {
    NothingFreeNothingListed(rooms, bookings, checkIn, checkOut, roomType);
  }

  /** Cancelled and checked-out bookings, and bookings with no status, never hide a room. */
  lemma InactiveBookingsIgnored(rooms: seq<Room>, bookings: seq<Booking>, extra: seq<Booking>, checkIn: Date, checkOut: Date, roomType: Option<RoomType>)
    requires forall b :: b in extra ==> !ActiveStatus(b.bookingStatus)
    ensures FindAvailableRooms(rooms, bookings + extra, checkIn, checkOut, roomType)
            == FindAvailableRooms(rooms, bookings, checkIn, checkOut, roomType)
  {
    forall x | x in rooms
      ensures SelectedForStay(x, bookings + extra, checkIn, checkOut, roomType) == SelectedForStay(x, bookings, checkIn, checkOut, roomType)
    {
      SelectedForStayMeaning(x, bookings + extra, checkIn, checkOut, roomType);
      SelectedForStayMeaning(x, bookings, checkIn, checkOut, roomType);
      assert forall b :: b in bookings + extra <==> b in bookings || b in extra;
    }
    FilterSame(rooms, (x: Room) => SelectedForStay(x, bookings + extra, checkIn, checkOut, roomType),
                      (x: Room) => SelectedForStay(x, bookings, checkIn, checkOut, roomType));
  }

  /** Same-day turnover is a conflict here too: an active booking that checks out on the
      requested check-in day hides its room. */
  lemma SameDayTurnoverHidesRoom(rooms: seq<Room>, bookings: seq<Booking>, b: Booking, room: Room, checkIn: Date, checkOut: Date, roomType: Option<RoomType>)
    requires b in bookings && b.roomId == Some(room.id) && ActiveStatus(b.bookingStatus)
    requires b.checkInDate.Some? && b.checkInDate.value <= checkIn && b.checkOutDate == Some(checkIn) && checkIn <= checkOut
    ensures room !in FindAvailableRooms(rooms, bookings, checkIn, checkOut, roomType)
  {
    assert BlocksSearch(b, checkIn, checkOut);
  }

  /** With no type given, every room that is free for the stay is listed. */
  lemma NoTypeListsEveryFreeRoom(rooms: seq<Room>, bookings: seq<Booking>, checkIn: Date, checkOut: Date)
    requires forall x :: x in rooms ==> FreeForStay(x.id, bookings, checkIn, checkOut)
    ensures FindAvailableRooms(rooms, bookings, checkIn, checkOut, None) == rooms
  {
    FilterAll(rooms, (x: Room) => SelectedForStay(x, bookings, checkIn, checkOut, None));
  }

  // ---------------------------------------------------------------- free-text search

  /** `%:searchParam%`: the parameter wrapped in `%`, with nothing escaped. */
  function Containing(p: string): string {
    "%" + p + "%"
  }

  /** The `WHERE` of `searchRooms`. A null column makes its disjunct unknown, which does not
      select the row. The type column is compared with `LIKE` and no added wildcards. */
  predicate MatchesSearch(r: Room, p: string) {
    || (r.roomNumber.Some? && Like(IntToString(r.roomNumber.value), Containing(p)))
    || Like(ToLower(RoomTypeName(r.roomType)), ToLower(p))
    || (r.pricePerNight.Some? && Like(CentsToText(r.pricePerNight.value), Containing(p)))
    || (r.capacity.Some? && Like(IntToString(r.capacity.value), Containing(p)))
    || (r.description.Some? && Like(ToLower(r.description.value), ToLower(Containing(p))))
    || (r.title.Some? && Like(ToLower(r.title.value), ToLower(Containing(p))))
  }

  /** `searchRooms`. */
  function SearchRooms(rooms: seq<Room>, p: string): (r: seq<Room>)
    ensures forall x :: x in r ==> x in rooms && MatchesSearch(x, p)
    ensures forall x :: x in rooms && MatchesSearch(x, p) ==> x in r
  {
    Filter(rooms, (x: Room) => MatchesSearch(x, p))
  }

  /** For a parameter without wildcards, the title and description disjuncts are
      case-insensitive substring tests. */
  lemma SearchFindsTitleSubstring(r: Room, p: string)
    requires Literal(p) && r.title.Some? && IsSubstring(ToLower(p), ToLower(r.title.value))
    ensures MatchesSearch(r, p)
  {
    LowerLikeContains(r.title.value, p);
  }

  /** Example: accented capitals are folded too, so a room titled "SUÍTE MASTER" is found by "suíte". */
  lemma AccentedTitleFound(r: Room)
    requires r.title == Some("SUÍTE MASTER")
    ensures MatchesSearch(r, "suíte")
  {
    var upper, rest := "SUÍTE", " MASTER";
    assert r.title.value == upper + rest;
    ToLowerConcat(upper, rest);
    var p := ToLower(upper);
    assert p == "suíte" by {
      assert p[2] == LowerChar('\U{CD}') == '\U{ED}';
    }
    assert ToLower(p) == p;
    assert p <= ToLower(r.title.value)[0..];
    SearchFindsTitleSubstring(r, p);
  }

  lemma SearchFindsDescriptionSubstring(r: Room, p: string)
    requires Literal(p) && r.description.Some? && IsSubstring(ToLower(p), ToLower(r.description.value))
    ensures MatchesSearch(r, p)
  {
    LowerLikeContains(r.description.value, p);
  }

  /** For a parameter without wildcards, the number disjunct is a substring test on the
      decimal digits, so "1" finds rooms 1, 10 and 21. */
  lemma SearchFindsNumberDigits(r: Room, p: string)
    requires Literal(p) && r.roomNumber.Some? && IsSubstring(p, IntToString(r.roomNumber.value))
    ensures MatchesSearch(r, p)
  {
    LikeContains(IntToString(r.roomNumber.value), p);
  }

  /** For a parameter without wildcards, the type disjunct is case-insensitive equality with
      the whole enum name: "suit" finds suites, "sui" does not. */
  lemma TypeDisjunctIsWholeName(r: Room, p: string)
    requires Literal(p)
    ensures Like(ToLower(RoomTypeName(r.roomType)), ToLower(p)) <==> ToLower(p) == ToLower(RoomTypeName(r.roomType))
  {
    assert Literal(ToLower(p));
    LikeLiteral(ToLower(RoomTypeName(r.roomType)), ToLower(p));
  }

  /** The parameter is not escaped: a lone `%` matches every type name and so every room. */
  lemma PercentSelectsEveryRoom(rooms: seq<Room>)
    ensures SearchRooms(rooms, "%") == rooms
  {
    forall x | x in rooms ensures MatchesSearch(x, "%") {
      assert ToLower("%") == "%";
      LikePercent(ToLower(RoomTypeName(x.roomType)));
    }
    FilterAll(rooms, (x: Room) => MatchesSearch(x, "%"));
  }
}
