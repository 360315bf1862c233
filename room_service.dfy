/** `RoomServiceImpl`: adding and patching rooms with an optional image, listing and searching
    rooms with their image URLs, the availability search with its date checks, lookups and
    deletion. The clock is a parameter (`today`). */
module RoomService {
  import opened Wrappers
  import opened Entities
  import opened Exceptions
  import opened Seqs
  import opened StayDates
  import opened RoomRepository
  import UserService
  import BookingService

  // ---------------------------------------------------------------- images

  /** An uploaded multipart file: its declared content type and its bytes. */
  datatype ImageUpload = ImageUpload(contentType: Option<string>, bytes: seq<bv8>)

  const AcceptedImageTypes: set<string> := {"image/jpeg", "image/png", "image/jpg"}
  const ImageTypeMessage := "Apenas imagens JPEG, JPG ou PNG são permitidas."

  /** The image check shared by `addRoom` and `updateRoom`: no file or an empty file keeps the
      current image (`Ok(None)`); a non-empty file of an accepted type becomes the image. */
  function CheckImage(file: Option<ImageUpload>): (r: Result<Option<seq<bv8>>, Exception>)
    ensures file.None? || file.value.bytes == [] ==> r == Ok(None)
    ensures file.Some? && file.value.bytes != [] ==>
              (r.Ok? <==> file.value.contentType.Some? && file.value.contentType.value in AcceptedImageTypes)
    ensures r.Ok? && r.value.Some? ==> file.Some? && r.value.value == file.value.bytes && r.value.value != []
    ensures r.Err? ==> r.error == IllegalArgumentException(ImageTypeMessage)
  {
    if file.None? || file.value.bytes == [] then Ok(None)
    else
      var t := file.value.contentType;
      if t.None? || !(t.value == "image/jpeg" || t.value == "image/png" || t.value == "image/jpg") then
        Err(IllegalArgumentException(ImageTypeMessage))
      else Ok(Some(file.value.bytes))
  }

  /** The comparison is exact: other spellings of an accepted type are refused. */
  lemma ImageTypeIsExact(bytes: seq<bv8>)
    requires bytes != []
    ensures CheckImage(Some(ImageUpload(Some("image/PNG"), bytes))).Err?
    ensures CheckImage(Some(ImageUpload(Some("image/gif"), bytes))).Err?
    ensures CheckImage(Some(ImageUpload(None, bytes))).Err?
  {
    assert "image/PNG" != "image/png" by { assert "image/PNG"[6] != "image/png"[6]; }
    assert "image/PNG" !in AcceptedImageTypes;
    assert "image/gif" !in AcceptedImageTypes by {
      assert "image/gif"[6] != "image/jpeg"[6] && "image/gif"[6] != "image/png"[6];
      assert "image/gif"[6] != "image/jpg"[6];
    }
  }

  // ---------------------------------------------------------------- adding

  /** The fields of the `RoomDTO` that `addRoom` maps onto a new room. */
  datatype RoomForm = RoomForm(
    roomNumber: Option<int>, roomType: Option<RoomType>, pricePerNight: Option<Cents>,
    capacity: Option<int>, description: Option<string>, title: Option<string>)

  function NewRoom(form: RoomForm, roomType: RoomType, image: Option<seq<bv8>>): Room {
    Room(0, form.roomNumber, roomType, form.pricePerNight, form.capacity, form.description, form.title, image)
  }

  /** `addRoom`: the image check, then the save, which refuses a missing type, the other bean
      constraints and a room number already in use. */
  method AddRoom(rooms: RoomTable, form: RoomForm, file: Option<ImageUpload>) returns (r: Result<Room, Exception>)
    requires rooms.Valid()
    modifies rooms
    ensures rooms.Valid()
    ensures CheckImage(file).Err? ==> r == Err(CheckImage(file).error)
    ensures CheckImage(file).Ok? && form.roomType.None? ==> r.Err? && r.error.ConstraintViolationException?
    ensures r.Ok? <==> && CheckImage(file).Ok? && form.roomType.Some?
                       && RoomValid(NewRoom(form, form.roomType.value, CheckImage(file).value))
                       && !NumberInUse(old(rooms.rows), form.roomNumber)
    ensures r.Ok? ==> r.value == NewRoom(form, form.roomType.value, CheckImage(file).value).(id := old(rooms.nextId))
                      && rooms.rows == old(rooms.rows) + [r.value]
    ensures r.Err? ==> rooms.rows == old(rooms.rows)
  {
    var image := CheckImage(file);
    if image.Err? {
      return Err(image.error);
    }
    if form.roomType.None? {
      return Err(ConstraintViolationException("O tipo de quarto é obrigatório"));
    }
    r := rooms.Insert(NewRoom(form, form.roomType.value, image.value));
  }

  // ---------------------------------------------------------------- patching

  /** The non-null fields of the `RoomDTO` sent to `updateRoom`, with the id it names. */
  datatype RoomPatch = RoomPatch(
    id: int, roomNumber: Option<int>, pricePerNight: Option<Cents>, capacity: Option<int>,
    roomType: Option<RoomType>, description: Option<string>, title: Option<string>)

  /** The guarded setters of `updateRoom`: a number only when at least 0, a price only when at
      least 0, a capacity only when above 0, type, description and title whenever given, and
      the image when the check produced one. Nothing else changes. */
  function ApplyRoomPatch(room: Room, p: RoomPatch, image: Option<seq<bv8>>): (r: Room)
    ensures r.id == room.id
    ensures r.roomNumber == if p.roomNumber.Some? && p.roomNumber.value >= 0 then p.roomNumber else room.roomNumber
    ensures r.pricePerNight == if p.pricePerNight.Some? && p.pricePerNight.value >= 0 then p.pricePerNight else room.pricePerNight
    ensures r.capacity == if p.capacity.Some? && p.capacity.value > 0 then p.capacity else room.capacity
    ensures r.roomType == if p.roomType.Some? then p.roomType.value else room.roomType
    ensures r.description == if p.description.Some? then p.description else room.description
    ensures r.title == if p.title.Some? then p.title else room.title
    ensures r.imageData == if image.Some? then image else room.imageData
  {
    Room(room.id,
         if p.roomNumber.Some? && p.roomNumber.value >= 0 then p.roomNumber else room.roomNumber,
         if p.roomType.Some? then p.roomType.value else room.roomType,
         if p.pricePerNight.Some? && p.pricePerNight.value >= 0 then p.pricePerNight else room.pricePerNight,
         if p.capacity.Some? && p.capacity.value > 0 then p.capacity else room.capacity,
         if p.description.Some? then p.description else room.description,
         if p.title.Some? then p.title else room.title,
         if image.Some? then image else room.imageData)
  }

  /** A patch with nothing in it and no image leaves the room as it is. */
  lemma EmptyPatchKeepsRoom(room: Room)
    ensures ApplyRoomPatch(room, RoomPatch(room.id, None, None, None, None, None, None), None) == room
  {
  }

  /** Applying a patch twice is applying it once. */
  lemma RoomPatchIdempotent(room: Room, p: RoomPatch, image: Option<seq<bv8>>)
    ensures ApplyRoomPatch(ApplyRoomPatch(room, p, image), p, image) == ApplyRoomPatch(room, p, image)
  {
  }

  /** The guards are weaker than the entity's constraints: room number 0 or a price under ten
      hundredths passes them and yields a room the save refuses. */
  lemma GuardsWeakerThanRoomInvariant(room: Room, p: RoomPatch, image: Option<seq<bv8>>)
    requires p.roomNumber == Some(0) || (p.pricePerNight.Some? && 0 <= p.pricePerNight.value < 10)
    ensures !RoomValid(ApplyRoomPatch(room, p, image))
  {
  }

  /** A patch whose given values already meet the constraints keeps a valid room valid. */
  lemma PatchWithinConstraintsKeepsRoomValid(room: Room, p: RoomPatch, image: Option<seq<bv8>>)
    requires RoomValid(room)
    requires p.roomNumber.Some? ==> p.roomNumber.value >= 1 || p.roomNumber.value < 0
    requires p.pricePerNight.Some? ==> p.pricePerNight.value >= 10 || p.pricePerNight.value < 0
    ensures RoomValid(ApplyRoomPatch(room, p, image))
  {
  }

  const RoomNotFound := NotFoundException("Quarto não encontrado")

  /** `updateRoom`: not found, then the image check, then the save of the patched room. */
  method UpdateRoom(rooms: RoomTable, p: RoomPatch, file: Option<ImageUpload>) returns (r: Result<Room, Exception>)
    requires rooms.Valid()
    modifies rooms
    ensures rooms.Valid() && rooms.nextId == old(rooms.nextId)
    ensures FindRoomById(old(rooms.rows), p.id).None? ==> r == Err(RoomNotFound)
    ensures FindRoomById(old(rooms.rows), p.id).Some? && CheckImage(file).Err? ==> r == Err(CheckImage(file).error)
    ensures r.Ok? <==> && FindRoomById(old(rooms.rows), p.id).Some? && CheckImage(file).Ok?
                       && var patched := ApplyRoomPatch(FindRoomById(old(rooms.rows), p.id).value, p, CheckImage(file).value);
                          RoomValid(patched) && !NumberTaken(old(rooms.rows), patched.roomNumber, p.id)
    ensures r.Ok? ==> r.value == ApplyRoomPatch(FindRoomById(old(rooms.rows), p.id).value, p, CheckImage(file).value)
                      && rooms.rows == ReplaceRoom(old(rooms.rows), r.value)
    ensures r.Err? ==> rooms.rows == old(rooms.rows)
  {
    var existing := FindRoomById(rooms.rows, p.id);
    if existing.None? {
      return Err(RoomNotFound);
    }
    var image := CheckImage(file);
    if image.Err? {
      return Err(image.error);
    }
    r := rooms.Update(ApplyRoomPatch(existing.value, p, image.value));
  }

  // ---------------------------------------------------------------- listing

  /** A room as the listings return it: the mapped fields and its image URL. */
  function RoomView(r: Room): (d: RoomDTO)
    ensures d.id == r.id && d.imageUrl == Some(RoomImageUrl(r.id))
    ensures d.(imageUrl := None) == ToRoomDTO(r)
  {
    ToRoomDTO(r).(imageUrl := Some(RoomImageUrl(r.id)))
  }

  /** The mapping of a room list to DTOs followed by the index loop that sets each URL from the
      room at the same position. */
  method WithImageUrls(roomList: seq<Room>) returns (dtos: seq<RoomDTO>)
    ensures |dtos| == |roomList|
    ensures forall i :: 0 <= i < |roomList| ==> dtos[i] == RoomView(roomList[i])
  {
    dtos := Map(roomList, ToRoomDTO);
    var i := 0;
    while i < |dtos|
      invariant |dtos| == |roomList| && 0 <= i <= |dtos|
      invariant forall k :: 0 <= k < i ==> dtos[k] == RoomView(roomList[k])
      invariant forall k :: i <= k < |dtos| ==> dtos[k] == ToRoomDTO(roomList[k])
    {
      dtos := dtos[i := dtos[i].(imageUrl := Some(RoomImageUrl(roomList[i].id)))];
      i := i + 1;
    }
  }

  /** `getAllRooms`: every room, highest id first, each with its URL. */
  method GetAllRooms(rooms: RoomTable) returns (dtos: seq<RoomDTO>)
    ensures dtos == Map(Reverse(rooms.rows), RoomView)
  {
    dtos := WithImageUrls(Reverse(rooms.rows));
  }

  /** The listing of a valid table is ordered by descending id and holds every room. */
  lemma AllRoomsNewestFirst(rows: seq<Room>)
    requires RoomIdsAscending(rows)
    ensures var l := Map(Reverse(rows), RoomView);
            && (forall i, j :: 0 <= i < j < |l| ==> l[i].id > l[j].id)
            && (forall x :: x in rows ==> RoomView(x) in l)
  {
    var rev := Reverse(rows);
    var l := Map(rev, RoomView);
    forall x | x in rows ensures RoomView(x) in l {
      var k :| 0 <= k < |rev| && rev[k] == x;
      assert l[k] == RoomView(x);
    }
  }

  /** `searchRoom`: the rooms `searchRooms` returns, in its order, each with its URL. */
  method SearchRoom(rooms: RoomTable, input: string) returns (dtos: seq<RoomDTO>)
    ensures dtos == Map(SearchRooms(rooms.rows, input), RoomView)
  {
    dtos := WithImageUrls(SearchRooms(rooms.rows, input));
  }

  // ---------------------------------------------------------------- availability

  /** The messages `getAvailableRooms` attaches to the three date rules. */
  function SearchDateMessage(v: DateViolation): string {
    match v
    case CheckInBeforeToday => "A data de check-in não pode ser antes de hoje"
    case CheckOutBeforeCheckIn => "A data de check-out não pode ser anterior à data de check-in "
    case CheckInEqualsCheckOut => "A data de check-in não pode ser igual à data de check-out"
  }

  /** The DTO built from a projection row, with its URL. */
  function ProjectionView(p: RoomAvailableProjection): RoomDTO {
    RoomDTO(p.id, p.roomNumber, p.roomType, p.pricePerNight, p.capacity, p.description, p.title,
            Some(RoomImageUrl(p.id)))
  }

  /** `getAvailableRooms`: the date rules, then the projection query mapped to DTOs. */
  function GetAvailableRooms(rooms: seq<Room>, bookings: seq<Booking>, checkIn: Date, checkOut: Date,
                             roomType: Option<RoomType>, today: Date): (r: Result<seq<RoomDTO>, Exception>)
    ensures r.Ok? <==> CheckStayDates(checkIn, checkOut, today).None?
    ensures r.Err? ==> r.error == InvalidBookingStateAndDateException(SearchDateMessage(CheckStayDates(checkIn, checkOut, today).value))
    ensures r.Ok? ==> forall d :: d in r.value ==>
              exists x :: x in rooms && TypeMatches(x, roomType) && FreeForStay(x.id, bookings, checkIn, checkOut)
                          && d == RoomView(x)
    ensures r.Ok? ==> forall x :: x in rooms && TypeMatches(x, roomType) && FreeForStay(x.id, bookings, checkIn, checkOut)
                                  ==> RoomView(x) in r.value
  {
    match CheckStayDates(checkIn, checkOut, today)
    case Some(v) => Err(InvalidBookingStateAndDateException(SearchDateMessage(v)))
    case None =>
      var found := FindAvailableRooms(rooms, bookings, checkIn, checkOut, roomType);
      var projections := FindAvailableRoomsProjection(rooms, bookings, checkIn, checkOut, roomType);
      var dtos := Map(projections, ProjectionView);
      assert forall i :: 0 <= i < |found| ==> dtos[i] == RoomView(found[i]);
      assert forall d :: d in dtos ==> exists x :: x in found && d == RoomView(x) by {
        forall d | d in dtos ensures exists x :: x in found && d == RoomView(x) {
          var i :| 0 <= i < |dtos| && dtos[i] == d;
          assert found[i] in found;
        }
      }
      assert forall x :: x in found ==> RoomView(x) in dtos by {
        forall x | x in found ensures RoomView(x) in dtos {
          var i :| 0 <= i < |found| && found[i] == x;
          assert dtos[i] == RoomView(x);
        }
      }
      Ok(dtos)
  }

  /** The search and the booking creation refuse the same date pairs, for the same reason:
      whenever the user and the room are found, a search that fails on the dates corresponds to
      a booking that fails on the same rule. */
  lemma SearchAndBookingShareDateRules(users: seq<User>, rooms: seq<Room>, bookings: seq<Booking>, principal: string,
                                       req: BookingService.BookingRequest, roomType: Option<RoomType>, today: Date)
    requires UserService.GetCurrentLoggedInUser(users, principal).Ok?
    requires FindRoomById(rooms, req.roomId).Some?
    ensures var search := GetAvailableRooms(rooms, bookings, req.checkInDate, req.checkOutDate, roomType, today);
            var booking := BookingService.CheckCreateBooking(users, rooms, bookings, principal, req, today);
            && (search.Err? ==> var v := CheckStayDates(req.checkInDate, req.checkOutDate, today).value;
                                && search.error == InvalidBookingStateAndDateException(SearchDateMessage(v))
                                && booking == Err(InvalidBookingStateAndDateException(BookingService.DateMessage(v))))
            && (search.Ok? ==> forall v :: booking != Err(InvalidBookingStateAndDateException(BookingService.DateMessage(v))))
  {
    if CheckStayDates(req.checkInDate, req.checkOutDate, today).Some? {
      BookingService.DateRulesComeFirst(users, rooms, bookings, principal, req, today);
    } else {
      BookingService.UnavailableIsNoDateMessage();
    }
  }

  // ---------------------------------------------------------------- lookups and deletion

  /** `getRoomById`. */
  function GetRoomById(rows: seq<Room>, id: int): (r: Result<RoomDTO, Exception>)
    ensures r.Err? <==> forall x :: x in rows ==> x.id != id
    ensures r.Err? ==> r.error == RoomNotFound
    ensures r.Ok? ==> r.value.id == id && exists x :: x in rows && r.value == RoomView(x)
  {
    match FindRoomById(rows, id)
    case None => Err(RoomNotFound)
    case Some(room) => Ok(RoomView(room))
  }

  /** `getRoomImageData` (and `getRoomImageDataById`): the stored bytes, possibly null. */
  function GetRoomImageData(rows: seq<Room>, id: int): (r: Result<Option<seq<bv8>>, Exception>)
    ensures r.Err? <==> forall x :: x in rows ==> x.id != id
    ensures r.Err? ==> r.error == RoomNotFound
    ensures r.Ok? ==> exists x :: x in rows && x.id == id && r.value == x.imageData
  {
    match FindRoomById(rows, id)
    case None => Err(RoomNotFound)
    case Some(room) => Ok(room.imageData)
  }

  const RoomReferenced := DataIntegrityViolationException("bookings.room_id references the room")

  /** `deleteRoom`: not found, then the delete, which the foreign key from `bookings` refuses
      while a booking names the room. */
  method DeleteRoom(rooms: RoomTable, bookings: seq<Booking>, id: int) returns (r: Result<(), Exception>)
    requires rooms.Valid()
    modifies rooms
    ensures rooms.Valid() && rooms.nextId == old(rooms.nextId)
    ensures (forall x :: x in old(rooms.rows) ==> x.id != id) ==> r == Err(RoomNotFound)
    ensures r.Ok? <==> (exists x :: x in old(rooms.rows) && x.id == id) && (forall b :: b in bookings ==> b.roomId != Some(id))
    ensures r.Err? ==> rooms.rows == old(rooms.rows)
    ensures r.Ok? ==> forall x :: x in rooms.rows <==> x in old(rooms.rows) && x.id != id
  {
    var room := FindRoomById(rooms.rows, id);
    if room.None? {
      return Err(RoomNotFound);
    }
    if exists b :: b in bookings && b.roomId == Some(id) {
      return Err(RoomReferenced);
    }
    rooms.Delete(id);
    r := Ok(());
  }
}
