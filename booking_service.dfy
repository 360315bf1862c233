/** `BookingServiceImpl`: creating a booking, patching its statuses, listing all bookings and
    looking one up by reference. The clock, the frontend URL, the authenticated principal, the
    retry budget of the reference generator and the mail outcome are parameters. */
module BookingService {
  import opened Wrappers
  import opened Entities
  import opened Exceptions
  import opened Seqs
  import opened Text
  import opened StayDates
  import opened BookingRepository
  import RoomRepository
  import UserRepository
  import UserService
  import BookingCodeGenerator
  import Notifications

  // ---------------------------------------------------------------- pricing

  /** `calculateTotalPrice`: the nightly price times the nights between the dates. A room
      without a price makes the multiplication dereference null. */
  function CalculateTotalPrice(room: Room, checkIn: Date, checkOut: Date): (r: Result<Cents, Exception>)
    ensures r.Ok? <==> room.pricePerNight.Some?
    ensures r.Err? ==> r.error.NullPointerException?
    ensures r.Ok? ==> r.value == room.pricePerNight.value * Nights(checkIn, checkOut)
  {
    if room.pricePerNight.None? then Err(NullPointerException("pricePerNight is null"))
    else Ok(room.pricePerNight.value * Nights(checkIn, checkOut))
  }

  /** Pricing is additive over consecutive stays and, for a valid room and accepted dates, at
      least one night's price and at least ten hundredths per night. */
  lemma TotalPriceProperties(room: Room, a: Date, b: Date, c: Date, today: Date)
    requires room.pricePerNight.Some?
    ensures CalculateTotalPrice(room, a, c).value
            == CalculateTotalPrice(room, a, b).value + CalculateTotalPrice(room, b, c).value
    ensures RoomValid(room) && CheckStayDates(a, b, today).None? ==>
              CalculateTotalPrice(room, a, b).value >= room.pricePerNight.value
              && CalculateTotalPrice(room, a, b).value >= 10 * Nights(a, b)
  {
    var p := room.pricePerNight.value;
    assert p * (c - a) == p * (b - a) + p * (c - b);
    if RoomValid(room) && CheckStayDates(a, b, today).None? {
      AcceptedStayHasNights(a, b, today);
      assert p * (b - a) >= p * 1;
      assert p * (b - a) >= 10 * (b - a);
    }
  }

  // ---------------------------------------------------------------- creation

  datatype BookingRequest = BookingRequest(roomId: int, checkInDate: Date, checkOutDate: Date)

  /** What the checks of `createBooking` establish before anything is written. */
  datatype Quote = Quote(user: User, room: Room, totalPrice: Cents)

  const UnavailableMessage := "O quarto não está disponível para os intervalos de datas selecionados"

  /** The messages `createBooking` attaches to the three date rules. */
  function DateMessage(v: DateViolation): string {
    match v
    case CheckInBeforeToday => "A data de entrada não pode ser antes de hoje"
    case CheckOutBeforeCheckIn => "A data de saída não pode ser anterior à data de entrada"
    case CheckInEqualsCheckOut => "A data de entrada não pode ser igual à data de saída"
  }

  /** The checks of `createBooking`, in their order: current user, room, the three date rules,
      availability, price. */
  function CheckCreateBooking(users: seq<User>, rooms: seq<Room>, bookings: seq<Booking>,
                              principal: string, req: BookingRequest, today: Date): (r: Result<Quote, Exception>)
    ensures UserService.GetCurrentLoggedInUser(users, principal).Err? ==>
              r == Err(NotFoundException("Usuário não encontrado"))
    ensures UserService.GetCurrentLoggedInUser(users, principal).Ok? && RoomRepository.FindRoomById(rooms, req.roomId).None? ==>
              r == Err(NotFoundException("Quarto não encontrado"))
    ensures r.Ok? ==>
              && r.value.user == UserService.GetCurrentLoggedInUser(users, principal).value
              && r.value.room == RoomRepository.FindRoomById(rooms, req.roomId).value
              && CheckStayDates(req.checkInDate, req.checkOutDate, today).None?
              && IsRoomAvailable(bookings, req.roomId, req.checkInDate, req.checkOutDate)
              && r.value.room.pricePerNight.Some?
              && r.value.totalPrice == r.value.room.pricePerNight.value * Nights(req.checkInDate, req.checkOutDate)
              && Nights(req.checkInDate, req.checkOutDate) >= 1
    ensures r.Ok? <==>
              && UserService.GetCurrentLoggedInUser(users, principal).Ok?
              && RoomRepository.FindRoomById(rooms, req.roomId).Some?
              && CheckStayDates(req.checkInDate, req.checkOutDate, today).None?
              && IsRoomAvailable(bookings, req.roomId, req.checkInDate, req.checkOutDate)
              && RoomRepository.FindRoomById(rooms, req.roomId).value.pricePerNight.Some?
    ensures UserService.GetCurrentLoggedInUser(users, principal).Ok? && RoomRepository.FindRoomById(rooms, req.roomId).Some?
            && CheckStayDates(req.checkInDate, req.checkOutDate, today).None? ==>
              && (!IsRoomAvailable(bookings, req.roomId, req.checkInDate, req.checkOutDate) ==>
                    r == Err(InvalidBookingStateAndDateException(UnavailableMessage)))
              && (IsRoomAvailable(bookings, req.roomId, req.checkInDate, req.checkOutDate)
                  && RoomRepository.FindRoomById(rooms, req.roomId).value.pricePerNight.None? ==>
                    r.Err? && r.error.NullPointerException?)
  {
    match UserService.GetCurrentLoggedInUser(users, principal)
    case Err(e) => Err(e)
    case Ok(user) =>
      match RoomRepository.FindRoomById(rooms, req.roomId)
      case None => Err(NotFoundException("Quarto não encontrado"))
      case Some(room) =>
        match CheckStayDates(req.checkInDate, req.checkOutDate, today)
        case Some(v) => Err(InvalidBookingStateAndDateException(DateMessage(v)))
        case None =>
          if !IsRoomAvailable(bookings, room.id, req.checkInDate, req.checkOutDate) then
            Err(InvalidBookingStateAndDateException(UnavailableMessage))
          else
            match CalculateTotalPrice(room, req.checkInDate, req.checkOutDate)
            case Err(e) => Err(e)
            case Ok(total) => Ok(Quote(user, room, total))
  }

  /** The availability message is none of the date messages. */
  lemma UnavailableIsNoDateMessage()
    ensures forall v :: UnavailableMessage != DateMessage(v)
  {
    assert |UnavailableMessage| == 69;
    assert |DateMessage(CheckInBeforeToday)| == 44;
    assert |DateMessage(CheckOutBeforeCheckIn)| == 55;
    assert |DateMessage(CheckInEqualsCheckOut)| == 52;
  }

  /** Once the user and the room are found, a date rule that fails decides the outcome,
      whatever the availability and the price. */
  lemma DateRulesComeFirst(users: seq<User>, rooms: seq<Room>, bookings: seq<Booking>,
                           principal: string, req: BookingRequest, today: Date)
    requires UserService.GetCurrentLoggedInUser(users, principal).Ok?
    requires RoomRepository.FindRoomById(rooms, req.roomId).Some?
    requires CheckStayDates(req.checkInDate, req.checkOutDate, today).Some?
    ensures CheckCreateBooking(users, rooms, bookings, principal, req, today)
            == Err(InvalidBookingStateAndDateException(DateMessage(CheckStayDates(req.checkInDate, req.checkOutDate, today).value)))
  {
  }

  /** Accepted dates and an unavailable room give the availability error. */
  lemma UnavailableRoomRejected(users: seq<User>, rooms: seq<Room>, bookings: seq<Booking>,
                                principal: string, req: BookingRequest, today: Date)
    requires UserService.GetCurrentLoggedInUser(users, principal).Ok?
    requires RoomRepository.FindRoomById(rooms, req.roomId).Some?
    requires CheckStayDates(req.checkInDate, req.checkOutDate, today).None?
    requires !IsRoomAvailable(bookings, req.roomId, req.checkInDate, req.checkOutDate)
    ensures CheckCreateBooking(users, rooms, bookings, principal, req, today)
            == Err(InvalidBookingStateAndDateException(UnavailableMessage))
  {
  }

  /** The booking `createBooking` saves. */
  function NewBooking(q: Quote, req: BookingRequest, reference: string, now: DateTime, id: int): Booking {
    Booking(id, Some(q.user.id), Some(q.room.id), Some(req.checkInDate), Some(req.checkOutDate),
            Some(q.totalPrice), reference, Some(BOOKED), Some(PENDING), now)
  }

  const ConfirmationSubject := "Confirmação de Reserva | Quinta do Ypuã"
  const ConfirmationIntro := "Sua reserva foi criada com sucesso. Prossiga com o pagamento usando o link abaixo.\n\n"

  /** `frontendUrl/payment/{reference}/{totalPrice}`, the price as `BigDecimal` prints it. */
  function PaymentUrl(frontendUrl: string, reference: string, totalPrice: Cents): string {
    frontendUrl + "/payment/" + reference + "/" + CentsToText(totalPrice)
  }

  function ConfirmationMail(email: string, frontendUrl: string, reference: string, totalPrice: Cents): Notification {
    Notification(email, ConfirmationSubject, ConfirmationIntro + PaymentUrl(frontendUrl, reference, totalPrice),
                 Some(reference), None)
  }

  /** The booking just saved blocks the same request from then on. */
  lemma CreatedBookingBlocksRepeat(rows: seq<Booking>, q: Quote, req: BookingRequest, reference: string, now: DateTime, id: int)
    requires q.room.id == req.roomId && req.checkInDate < req.checkOutDate
    ensures !IsRoomAvailable(rows + [NewBooking(q, req, reference, now, id)], req.roomId, req.checkInDate, req.checkOutDate)
  {
    var b := NewBooking(q, req, reference, now, id);
    assert b in rows + [b] && EndpointInRange(b, req.roomId, req.checkInDate, req.checkOutDate);
  }

  /** When every stored reference was drawn from the store and the new one was not in it, the
      booking just saved is the one its reference finds. */
  lemma CreatedBookingFoundByReference(rows: seq<Booking>, codes: seq<string>, b: Booking)
    requires forall x :: x in rows ==> x.bookingReference in codes
    requires b.bookingReference !in codes
    ensures FindByBookingReference(rows + [b], b.bookingReference) == Some(b)
  {
    assert b in rows + [b];
    forall x | x in rows + [b] && x.bookingReference == b.bookingReference ensures x == b {
      var k :| 0 <= k < |rows + [b]| && (rows + [b])[k] == x;
      if k < |rows| { assert rows[k] == x; }
    }
  }

  const ReferenceExhausted := RuntimeException("no unused booking reference drawn")

  /** `createBooking`. A failed check changes nothing. Otherwise a reference is drawn and
      stored, the BOOKED/PENDING booking is saved, and then one confirmation mail goes to the
      current user; a mail failure reaches the caller but the booking and reference stay. The
      ghost `reference` names the drawn code. */
  method CreateBooking(users: UserRepository.UserTable, rooms: RoomRepository.RoomTable, bookings: BookingTable,
                       store: BookingCodeGenerator.ReferenceStore, outbox: Notifications.NotificationLog,
                       principal: string, req: BookingRequest, today: Date, now: DateTime,
                       frontendUrl: string, attempts: nat, mailFailure: Option<string>)
    returns (r: Result<Booking, Exception>, ghost reference: Option<string>)
    requires bookings.Valid() && store.Valid()
    modifies bookings, store, outbox
    ensures bookings.Valid() && store.Valid()
    ensures var check := CheckCreateBooking(users.rows, rooms.rows, old(bookings.rows), principal, req, today);
            && (check.Err? ==> r == Err(check.error) && reference.None?)
            && (reference.None? ==> bookings.rows == old(bookings.rows) && store.codes == old(store.codes)
                                    && outbox.sent == old(outbox.sent) && r.Err?)
            && (check.Ok? && reference.None? ==> r == Err(ReferenceExhausted))
            && (check.Ok? && attempts > 0 && old(store.codes) == [] ==> reference.Some?)
            && (reference.Some? ==>
                  var q := check.value;
                  var b := NewBooking(q, req, reference.value, now, old(bookings.nextId));
                  && check.Ok?
                  && BookingCodeGenerator.WellFormedCode(reference.value)
                  && reference.value !in old(store.codes)
                  && store.codes == old(store.codes) + [reference.value]
                  && bookings.rows == old(bookings.rows) + [b]
                  && outbox.sent == old(outbox.sent) + [ConfirmationMail(q.user.email, frontendUrl, reference.value, q.totalPrice)]
                  && (mailFailure.None? ==> r == Ok(b))
                  && (mailFailure.Some? ==> r == Err(MailException(mailFailure.value))))
  {
    reference := None;
    var check := CheckCreateBooking(users.rows, rooms.rows, bookings.rows, principal, req, today);
    if check.Err? {
      return Err(check.error), None;
    }
    var q := check.value;
    var code := store.GenerateBookingReference(attempts);
    if code.None? {
      return Err(ReferenceExhausted), None;
    }
    reference := code;
    var saved := bookings.Insert(NewBooking(q, req, code.value, now, 0));
    var sent := outbox.SendEmail(ConfirmationMail(q.user.email, frontendUrl, code.value, q.totalPrice), mailFailure);
    if sent.Err? {
      return Err(sent.error), reference;
    }
    r := Ok(saved);
  }

  // ---------------------------------------------------------------- status patch

  /** The non-null fields of the `BookingDTO` sent to `updateBooking`. */
  datatype BookingPatch = BookingPatch(id: Option<int>, bookingStatus: Option<BookingStatus>, paymentStatus: Option<PaymentStatus>)

  /** The two status setters of `updateBooking`; every other field is kept. */
  function ApplyBookingPatch(b: Booking, p: BookingPatch): (r: Booking)
    ensures r.bookingStatus == (if p.bookingStatus.Some? then p.bookingStatus else b.bookingStatus)
    ensures r.paymentStatus == (if p.paymentStatus.Some? then p.paymentStatus else b.paymentStatus)
    ensures r.(bookingStatus := b.bookingStatus, paymentStatus := b.paymentStatus) == b
  {
    b.(bookingStatus := if p.bookingStatus.Some? then p.bookingStatus else b.bookingStatus,
       paymentStatus := if p.paymentStatus.Some? then p.paymentStatus else b.paymentStatus)
  }

  /** Applying the same patch again changes nothing more. */
  lemma PatchIdempotent(b: Booking, p: BookingPatch)
    ensures ApplyBookingPatch(ApplyBookingPatch(b, p), p) == ApplyBookingPatch(b, p)
  {
  }

  /** `updateBooking`. */
  method UpdateBooking(bookings: BookingTable, p: BookingPatch) returns (r: Result<(), Exception>)
    requires bookings.Valid()
    modifies bookings
    ensures bookings.Valid()
    ensures p.id.None? ==> r == Err(NotFoundException("ID da reserva é obrigatório."))
    ensures p.id.Some? && FindById(old(bookings.rows), p.id.value).None? ==> r == Err(NotFoundException("Reserva não encontrada."))
    ensures r.Err? ==> bookings.rows == old(bookings.rows)
    ensures r.Ok? <==> p.id.Some? && FindById(old(bookings.rows), p.id.value).Some?
    ensures r.Ok? ==> bookings.rows == ReplaceById(old(bookings.rows), ApplyBookingPatch(FindById(old(bookings.rows), p.id.value).value, p))
    ensures bookings.nextId == old(bookings.nextId)
  {
    if p.id.None? {
      return Err(NotFoundException("ID da reserva é obrigatório."));
    }
    var found := FindById(bookings.rows, p.id.value);
    if found.None? {
      return Err(NotFoundException("Reserva não encontrada."));
    }
    bookings.Update(ApplyBookingPatch(found.value, p));
    r := Ok(());
  }

  // ---------------------------------------------------------------- listing and lookup

  /** A booking as the listing and the lookup return it, with its room. */
  datatype BookingDetails = BookingDetails(booking: Booking, room: RoomDTO)

  /** The defaults both reads apply: a missing total is recomputed from the room when both
      dates are present, and missing statuses become BOOKED and PENDING. */
  function WithDefaults(b: Booking, room: Room): (r: Result<Booking, Exception>)
    ensures r.Err? <==> b.totalPrice.None? && b.checkInDate.Some? && b.checkOutDate.Some? && room.pricePerNight.None?
    ensures r.Ok? ==>
              && r.value.bookingStatus == (if b.bookingStatus.Some? then b.bookingStatus else Some(BOOKED))
              && r.value.paymentStatus == (if b.paymentStatus.Some? then b.paymentStatus else Some(PENDING))
              && (b.totalPrice.Some? || b.checkInDate.None? || b.checkOutDate.None? ==> r.value.totalPrice == b.totalPrice)
              && (b.totalPrice.None? && b.checkInDate.Some? && b.checkOutDate.Some? ==>
                    r.value.totalPrice == Some(room.pricePerNight.value * Nights(b.checkInDate.value, b.checkOutDate.value)))
              && r.value.(totalPrice := b.totalPrice, bookingStatus := b.bookingStatus, paymentStatus := b.paymentStatus) == b
  {
    var priced :=
      if b.totalPrice.None? && b.checkInDate.Some? && b.checkOutDate.Some? then
        match CalculateTotalPrice(room, b.checkInDate.value, b.checkOutDate.value)
        case Err(e) => Err(e)
        case Ok(t) => Ok(b.(totalPrice := Some(t)))
      else Ok(b);
    match priced
    case Err(e) => Err(e)
    case Ok(x) =>
      Ok(x.(bookingStatus := if x.bookingStatus.Some? then x.bookingStatus else Some(BOOKED),
            paymentStatus := if x.paymentStatus.Some? then x.paymentStatus else Some(PENDING)))
  }

  /** Defaults are applied once: a booking that already went through them is left as it is. */
  lemma WithDefaultsIdempotent(b: Booking, room: Room)
    requires WithDefaults(b, room).Ok?
    ensures WithDefaults(WithDefaults(b, room).value, room) == WithDefaults(b, room)
  {
  }

  /** The room a booking row references, if the row has one. */
  function RoomOf(b: Booking, rooms: seq<Room>): Option<Room> {
    if b.roomId.None? then None else RoomRepository.FindRoomById(rooms, b.roomId.value)
  }

  /** A row the listing keeps: it has a user and a room, and the defaults do not fail. */
  predicate Listable(b: Booking, rooms: seq<Room>) {
    b.userId.Some? && RoomOf(b, rooms).Some? && WithDefaults(b, RoomOf(b, rooms).value).Ok?
  }

  /** The entry the listing produces for a row it keeps; the room's image URL is left unset. */
  function Detail(b: Booking, rooms: seq<Room>): (d: BookingDetails)
    requires Listable(b, rooms)
    ensures d.booking.id == b.id && d.booking.bookingReference == b.bookingReference
    ensures d.room.imageUrl.None?
  {
    var room := RoomOf(b, rooms).value;
    BookingDetails(WithDefaults(b, room).value, ToRoomDTO(room))
  }

  /** The stream of `getAllBookings`: each row is mapped, rows without a user or room and rows
      whose mapping throws become null, and the nulls are filtered out. */
  function ListBookings(rs: seq<Booking>, rooms: seq<Room>): (r: seq<BookingDetails>)
    ensures |r| <= |rs|
    ensures forall d :: d in r ==> exists b :: b in rs && Listable(b, rooms) && d == Detail(b, rooms)
    ensures forall b :: b in rs && Listable(b, rooms) ==> Detail(b, rooms) in r
  {
    if rs == [] then []
    else
      var rest := ListBookings(rs[1..], rooms);
      assert forall b :: b in rs[1..] ==> b in rs;
      if Listable(rs[0], rooms) then [Detail(rs[0], rooms)] + rest else rest
  }

  /** `getAllBookings`: all rows newest first, through the stream above. */
  function GetAllBookings(rows: seq<Booking>, rooms: seq<Room>): (r: seq<BookingDetails>)
    ensures forall d :: d in r ==> d.booking.bookingStatus.Some? && d.booking.paymentStatus.Some?
                                   && d.booking.userId.Some? && d.booking.roomId == Some(d.room.id)
  {
    ListBookings(FindAllNewestFirst(rows), rooms)
  }

  /** The listing only holds bookings of its input, so a bound on the input's ids bounds the
      listed ids. */
  lemma ListedIdsBelow(rs: seq<Booking>, rooms: seq<Room>, bound: int)
    requires forall b :: b in rs ==> b.id < bound
    ensures forall d :: d in ListBookings(rs, rooms) ==> d.booking.id < bound
  {
    forall d | d in ListBookings(rs, rooms) ensures d.booking.id < bound {
      var b :| b in rs && Listable(b, rooms) && d == Detail(b, rooms);
    }
  }

  /** Listed bookings with strictly descending ids. */
  predicate DetailsNewestFirst(r: seq<BookingDetails>) {
    forall i, j :: 0 <= i < j < |r| ==> r[i].booking.id > r[j].booking.id
  }

  /** Putting an entry with a larger id in front of a descending listing keeps it descending. */
  lemma PrependNewest(head: BookingDetails, rest: seq<BookingDetails>)
    requires DetailsNewestFirst(rest)
    requires forall d :: d in rest ==> d.booking.id < head.booking.id
    ensures DetailsNewestFirst([head] + rest)
  {
    var r := [head] + rest;
    forall i, j | 0 <= i < j < |r| ensures r[i].booking.id > r[j].booking.id {
      assert r[j] == rest[j - 1];
      if i > 0 { assert r[i] == rest[i - 1]; }
    }
  }

  /** The listing keeps the order of its input, so a table with ascending ids is listed with
      descending ids. */
  lemma {:induction false} ListBookingsKeepsOrder(rs: seq<Booking>, rooms: seq<Room>)
    requires IdsDescending(rs)
    ensures DetailsNewestFirst(ListBookings(rs, rooms))
  {
    if rs != [] {
      var tail := rs[1..];
      assert IdsDescending(tail);
      ListBookingsKeepsOrder(tail, rooms);
      if Listable(rs[0], rooms) {
        assert forall b :: b in tail ==> b.id < rs[0].id;
        ListedIdsBelow(tail, rooms, rs[0].id);
        PrependNewest(Detail(rs[0], rooms), ListBookings(tail, rooms));
      }
    }
  }

  lemma GetAllBookingsNewestFirst(rows: seq<Booking>, rooms: seq<Room>)
    requires IdsAscending(rows)
    ensures DetailsNewestFirst(GetAllBookings(rows, rooms))
  {
    ListBookingsKeepsOrder(FindAllNewestFirst(rows), rooms);
  }

  /** `findBookingByReferenceNo`: not found, no user, no room (each a 404 with its own
      message), then the defaults; a missing price for the recomputation propagates. The room
      comes with its image URL. */
  function FindBookingByReferenceNo(rows: seq<Booking>, rooms: seq<Room>, reference: string): (r: Result<BookingDetails, Exception>)
    ensures FindByBookingReference(rows, reference).None? ==>
              r == Err(NotFoundException("Reserva com referência nº: " + reference + " não encontrada"))
    ensures FindByBookingReference(rows, reference).Some? && FindByBookingReference(rows, reference).value.userId.None? ==>
              r == Err(NotFoundException("Usuário associado à reserva não encontrado."))
    ensures FindByBookingReference(rows, reference).Some? && FindByBookingReference(rows, reference).value.userId.Some?
            && RoomOf(FindByBookingReference(rows, reference).value, rooms).None? ==>
              r == Err(NotFoundException("Quarto associado à reserva não encontrado."))
    ensures FindByBookingReference(rows, reference).Some? ==>
              (r.Ok? <==> Listable(FindByBookingReference(rows, reference).value, rooms))
    ensures FindByBookingReference(rows, reference).Some? && FindByBookingReference(rows, reference).value.userId.Some?
            && RoomOf(FindByBookingReference(rows, reference).value, rooms).Some?
            && !Listable(FindByBookingReference(rows, reference).value, rooms) ==>
              r.Err? && r.error.NullPointerException?
    ensures r.Ok? ==> var b := FindByBookingReference(rows, reference).value;
                      && Listable(b, rooms)
                      && r.value == Detail(b, rooms).(room := Detail(b, rooms).room.(imageUrl := Some(RoomImageUrl(b.roomId.value))))
  {
    match FindByBookingReference(rows, reference)
    case None => Err(NotFoundException("Reserva com referência nº: " + reference + " não encontrada"))
    case Some(b) =>
      if b.userId.None? then Err(NotFoundException("Usuário associado à reserva não encontrado."))
      else match RoomOf(b, rooms)
        case None => Err(NotFoundException("Quarto associado à reserva não encontrado."))
        case Some(room) =>
          match WithDefaults(b, room)
          case Err(e) => Err(e)
          case Ok(x) => Ok(BookingDetails(x, ToRoomDTO(room).(imageUrl := Some(RoomImageUrl(room.id)))))
  }

  /** Listing and lookup agree: with distinct references, every listed booking is found by its
      reference with the same values, the lookup adding only the image URL. */
  lemma LookupAgreesWithListing(rows: seq<Booking>, rooms: seq<Room>, b: Booking)
    requires forall i, j :: 0 <= i < j < |rows| ==> rows[i].bookingReference != rows[j].bookingReference
    requires b in rows && Listable(b, rooms)
    ensures FindBookingByReferenceNo(rows, rooms, b.bookingReference).Ok?
    ensures FindBookingByReferenceNo(rows, rooms, b.bookingReference).value.booking == Detail(b, rooms).booking
  {
    var x := FindByBookingReference(rows, b.bookingReference).value;
    var i :| 0 <= i < |rows| && rows[i] == x;
    var k :| 0 <= k < |rows| && rows[k] == b;
    assert i == k;
  }
}
