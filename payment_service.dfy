/** `PaymentService`: validating a payment-intent request and handing it to the gateway, and
    reconciling the gateway's outcome into the payments table, the booking and a mail. The
    gateway call, the clock, the rendering of dates and the mail outcome are parameters. */
module PaymentService {
  import opened Wrappers
  import opened Entities
  import opened Exceptions
  import opened Seqs
  import opened Text
  import opened StringFormat
  import opened BookingRepository
  import UserRepository
  import RoomRepository
  import Notifications

  /** The fields of `PaymentRequest` the service reads; each may be null except the flag. */
  datatype PaymentRequest = PaymentRequest(
    bookingReference: Option<string>,
    amount: Option<Decimal>,
    transactionId: Option<string>,
    success: bool,
    failureReason: Option<string>)

  /** A reference that is present and not blank. */
  predicate GivenReference(reference: Option<string>) {
    reference.Some? && !IsBlank(reference.value)
  }

  // ---------------------------------------------------------------- amounts

  function Pow10(n: nat): (p: nat)
    ensures p >= 1
  {
    if n == 0 then 1 else 10 * Pow10(n - 1)
  }

  const TwoTo63: int := 0x8000_0000_0000_0000
  const TwoTo64: int := 0x1_0000_0000_0000_0000

  /** `amount × 100` with its fraction dropped toward zero, the first step of `longValue`. */
  function Hundredths(d: Decimal): int {
    var m := (if d.unscaled < 0 then -d.unscaled else d.unscaled) * 100 / Pow10(d.scale);
    if d.unscaled < 0 then -m else m
  }

  /** The low 64 bits as a signed `long`, the second step of `longValue`. */
  function ToLong(x: int): (r: int)
    ensures -TwoTo63 <= r < TwoTo63
    ensures (x - r) % TwoTo64 == 0
    ensures -TwoTo63 <= x < TwoTo63 ==> r == x
  {
    (x + TwoTo63) % TwoTo64 - TwoTo63
  }

  /** The amount handed to the gateway, in minor units. */
  function MinorUnits(d: Decimal): int {
    ToLong(Hundredths(d))
  }

  /** Division by a positive divisor rounds down. */
  lemma DivisionRoundsDown(m: nat, q: nat, bound: int)
    requires q >= 1 && m < bound * q
    ensures q * (m / q) <= m < q * (m / q + 1)
    ensures 0 <= m / q < bound
  {
    var k := m / q;
    assert m == q * k + m % q;
  }

  /** Within the range of a `long`, the gateway amount is the requested amount in hundredths
      rounded down: the largest count of hundredths not above it. */
  lemma MinorUnitsTruncates(d: Decimal)
    requires d.unscaled >= 0 && d.unscaled * 100 < TwoTo63 * Pow10(d.scale)
    ensures 0 <= MinorUnits(d)
    ensures Pow10(d.scale) * MinorUnits(d) <= d.unscaled * 100 < Pow10(d.scale) * (MinorUnits(d) + 1)
  {
    var q := Pow10(d.scale);
    var m := d.unscaled * 100;
    var h := Hundredths(d);
    assert h == m / q;
    DivisionRoundsDown(m, q, TwoTo63);
    assert 0 <= h < TwoTo63;
    assert ToLong(h) == h;
    assert MinorUnits(d) == m / q;
  }

  /** A positive amount under one hundredth passes validation and is charged as zero. */
  lemma SubCentAmountChargesNothing()
    ensures Decimal(1, 3).unscaled > 0 && MinorUnits(Decimal(1, 3)) == 0
  {
    assert Pow10(3) == 1000;
  }

  /** An amount of 2^63 hundredths wraps around to the most negative `long`. */
  lemma HugeAmountWraps()
    ensures MinorUnits(Decimal(TwoTo63, 2)) == -TwoTo63
  {
    assert Pow10(2) == 100;
  }

  // ---------------------------------------------------------------- payment intent

  /** What `PaymentIntentCreateParams` carries. */
  datatype IntentParams = IntentParams(amount: int, currency: string, bookingReference: string)

  /** `createPaymentIntent`. `create` is the gateway: the client secret of the intent it made,
      or the message of the exception it threw. */
  function CreatePaymentIntent(rows: seq<Booking>, req: PaymentRequest,
                               create: IntentParams -> Result<string, string>): (r: Result<string, Exception>)
    ensures !GivenReference(req.bookingReference) ==>
              r == Err(IllegalArgumentException("bookingReference é obrigatório"))
    ensures GivenReference(req.bookingReference) && (req.amount.None? || req.amount.value.unscaled <= 0) ==>
              r == Err(IllegalArgumentException("amount deve ser maior que zero"))
    ensures r.Ok? || r.error.RuntimeException? ==>
              && GivenReference(req.bookingReference) && req.amount.Some? && req.amount.value.unscaled > 0
              && FindByBookingReference(rows, req.bookingReference.value).Some?
              && FindByBookingReference(rows, req.bookingReference.value).value.paymentStatus != Some(COMPLETED)
    ensures r.Ok? ==>
              create(IntentParams(MinorUnits(req.amount.value), "usd", req.bookingReference.value)) == Ok(r.value)
    ensures GivenReference(req.bookingReference) && req.amount.Some? && req.amount.value.unscaled > 0 ==>
              var found := FindByBookingReference(rows, req.bookingReference.value);
              && (found.None? ==> r == Err(NotFoundException("Reserva Não Encontrada")))
              && (found.Some? && found.value.paymentStatus == Some(COMPLETED) ==>
                    r == Err(NotFoundException("Pagamento já efetuado para esta reserva")))
              && (found.Some? && found.value.paymentStatus != Some(COMPLETED) ==>
                    var outcome := create(IntentParams(MinorUnits(req.amount.value), "usd", req.bookingReference.value));
                    (outcome.Ok? ==> r == Ok(outcome.value))
                    && (outcome.Err? ==> r == Err(RuntimeException("Erro ao criar pagamento: " + outcome.error))))
  {
    if !GivenReference(req.bookingReference) then Err(IllegalArgumentException("bookingReference é obrigatório"))
    else if req.amount.None? || req.amount.value.unscaled <= 0 then Err(IllegalArgumentException("amount deve ser maior que zero"))
    else
      var reference := req.bookingReference.value;
      match FindPaymentProjectionByBookingReference(rows, reference)
      case None => Err(NotFoundException("Reserva Não Encontrada"))
      case Some(projection) =>
        if projection.paymentStatus == Some(COMPLETED) then Err(NotFoundException("Pagamento já efetuado para esta reserva"))
        else
          match create(IntentParams(MinorUnits(req.amount.value), "usd", reference))
          case Ok(secret) => Ok(secret)
          case Err(message) => Err(RuntimeException("Erro ao criar pagamento: " + message))
  }

  function WithoutPrice(b: Booking): Booking {
    b.(totalPrice := None)
  }

  /** The requested amount is never checked against the booking: two tables that differ only in
      the bookings' total prices give the same answer. */
  lemma IntentIgnoresTotalPrice(rows1: seq<Booking>, rows2: seq<Booking>, req: PaymentRequest,
                                create: IntentParams -> Result<string, string>)
    requires Map(rows1, WithoutPrice) == Map(rows2, WithoutPrice)
    ensures CreatePaymentIntent(rows1, req, create) == CreatePaymentIntent(rows2, req, create)
  {
    if GivenReference(req.bookingReference) {
      var p := HasReference(req.bookingReference.value);
      FirstMap(rows1, WithoutPrice, p, p);
      FirstMap(rows2, WithoutPrice, p, p);
    }
  }

  // ---------------------------------------------------------------- outcome mails

  /** `String.valueOf` of a nullable string. */
  function NullText(s: Option<string>): string {
    if s.None? then "null" else s.value
  }

  /** `m / q` rounded half up: the whole number nearest to it, the larger one on a tie. */
  function RoundHalfUp(m: nat, q: nat): (c: nat)
    requires q >= 1
    ensures q * (2 * c - 1) <= 2 * m < q * (2 * c + 1)
  {
    var c := (2 * m + q) / (2 * q);
    DivisionRoundsDown(2 * m + q, 2 * q, 2 * m + q + 1);
    assert q * (2 * c - 1) == 2 * q * c - q;
    assert q * (2 * c + 1) == 2 * q * (c + 1) - q;
    c
  }

  /** The magnitude of `d` in hundredths, rounded half up as `%.2f` rounds. */
  function RoundedHundredths(d: Decimal): nat {
    RoundHalfUp((if d.unscaled < 0 then -d.unscaled else d.unscaled) * 100, Pow10(d.scale))
  }

  /** `%.2f` of a nullable `BigDecimal`. A null prints "null" cut to the precision of two, "nu".
      Otherwise the magnitude is rounded half up to hundredths, and the minus sign comes from the
      unrounded amount, so an amount that rounds to zero keeps it. */
  function AmountText(amount: Option<Decimal>): (t: string)
    ensures amount.None? ==> t == "nu"
    ensures amount.Some? ==> |t| > 0 && (t[0] == '-' <==> amount.value.unscaled < 0)
    ensures amount.Some? && amount.value.unscaled < 0 ==> t == "-" + CentsToText(RoundedHundredths(amount.value))
    ensures amount.Some? && amount.value.unscaled >= 0 ==> t == CentsToText(RoundedHundredths(amount.value))
  {
    if amount.None? then "nu"
    else
      var c := RoundedHundredths(amount.value);
      NatToStringUnsigned(c / 100);
      (if amount.value.unscaled < 0 then "-" else "") + CentsToText(c)
  }

  /** Example: an amount of -0.001 rounds to zero hundredths and still prints its sign. */
  lemma NegativeSubCentAmountText()
    ensures AmountText(Some(Decimal(-1, 3))) == "-0.00"
  {
    assert Pow10(3) == 1000;
    assert RoundedHundredths(Decimal(-1, 3)) == 0;
    assert NatToString(0) == "0";
  }

  const ConfirmedSubject := "Pagamento Confirmado | Quinta do Ypuã"
  const FailedSubject := "Falha no pagamento da reserva"

  /** The confirmation text; `showDate` renders a `LocalDate`. */
  function SuccessBody(firstName: Option<string>, reference: string, checkIn: Option<Date>, checkOut: Option<Date>,
                       roomTitle: Option<string>, amount: Option<Decimal>, showDate: Date -> string): string {
    var date := (d: Option<Date>) => if d.None? then "null" else showDate(d.value);
    "Prezado(a) " + NullText(firstName) + ",\n\n"
    + "Seu pagamento foi processado com sucesso! Agradecemos a preferência.\n\n"
    + "DETALHES DA RESERVA:\n"
    + "Número da Reserva: " + reference + "\n"
    + "Check-in: " + date(checkIn) + "\n"
    + "Check-out: " + date(checkOut) + "\n"
    + "Quarto: " + NullText(roomTitle) + "\n"
    + "Valor Total Pago: R$ " + AmountText(amount) + "\n\n"
    + "PRÓXIMOS PASSOS:\n"
    + " Anote seu número de reserva: " + reference + "\n"
    + " Apresente um documento com foto no momento do check-in\n\n"
    + "SERVIÇOS ADICIONAIS:\n"
    + "• Café da manhã incluso, servido das 7:00 às 10:00\n"
    + "• Wi-Fi gratuito em todas as áreas\n"
    + "• Serviço de quarto\n"
    + "• Lavanderia\n"
    + "• Estacionamento gratuito\n\n"
    + "Agradecemos a confiança e estamos ansiosos para recebê-lo(a)!\n\n"
    + "Atenciosamente,\n"
    + "Equipe Quinta do Ypuã"
  }

  // The failure text, line by line (split where a line is long).
  const Greeting := "Prezado(a) hóspede,\n\n"
  const ApologyStart := "Infelizmente houve uma falha no "
  const ApologyEnd := "processamento do pagamento da sua reserva "
  const FailureMotive := ".\nMotivo: "
  const RetryStart := "\n\nPor favor, tente novamente ou entre "
  const RetryEnd := "em contato conosco para assistência.\n\n"
  const Regards := "Atenciosamente,\n"

  const FailureOpening := Greeting + ApologyStart + ApologyEnd
  const FailureClosing := RetryStart + RetryEnd + Regards

  lemma ApologyIsLiteral()
    ensures '%' !in ApologyStart + ApologyEnd
  {
    assert '%' !in ApologyStart;
    assert '%' !in ApologyEnd;
  }

  lemma OpeningIsLiteral()
    ensures '%' !in FailureOpening
  {
    assert '%' !in Greeting;
    ApologyIsLiteral();
    assert FailureOpening == Greeting + (ApologyStart + ApologyEnd);
  }

  lemma RetryIsLiteral()
    ensures '%' !in RetryStart + RetryEnd
  {
    assert '%' !in RetryStart;
    assert '%' !in RetryEnd;
  }

  lemma ClosingIsLiteral()
    ensures '%' !in FailureClosing
  {
    RetryIsLiteral();
    assert '%' !in Regards;
  }

  /** None of the fixed pieces of the failure template holds a `%`. */
  lemma TemplatePiecesAreLiteral()
    ensures '%' !in FailureOpening && '%' !in FailureMotive && '%' !in FailureClosing
  {
    OpeningIsLiteral();
    ClosingIsLiteral();
  }

  /** The failure template with its two `%s` conversions: the reference, then the reason. */
  function FailureTemplate(): string {
    FailureOpening + "%s" + FailureMotive + "%s" + FailureClosing
  }

  /** The failure text as the service builds it: the reference is appended to the template
      instead of being passed as an argument, so only the reason fills a conversion. */
  function FailureBodyAsWritten(reference: string, reason: string): Result<string, Exception> {
    Format(FailureTemplate() + reference, [reason])
  }

  /** The second conversion never has an argument, so formatting the failure text always
      throws; with a reference free of `%` the error is the missing argument. */
  lemma FailedPaymentMailAlwaysThrows(reference: string, reason: string)
    ensures FailureBodyAsWritten(reference, reason).Err?
    ensures '%' !in reference ==> FailureBodyAsWritten(reference, reason) == Err(MissingArgument)
  {
    TemplatePiecesAreLiteral();
    TwoConversionsOneArgument(FailureOpening, FailureMotive, FailureClosing, reference, reason);
  }

  /** The failure text with the reference and the reason as the two arguments: formatting
      succeeds and names both. */
  function FailureBody(reference: string, reason: string): (body: string)
    ensures body == FailureOpening + reference + FailureMotive + reason + FailureClosing
  {
    TemplatePiecesAreLiteral();
    TwoConversions(FailureOpening, FailureMotive, FailureClosing, reference, reason);
    Format(FailureTemplate(), [reference, reason]).value
  }

  // ---------------------------------------------------------------- reconciliation

  const ProcessingPrefix := "Erro ao processar pagamento: "

  /** What a failed payment's reconciliation throws: the outer catch wraps the error of formatting
      the failure text, which for a reference without `%` is the missing argument. */
  function FailedPaymentError(reference: string, reason: string): (e: Exception)
    ensures FailureBodyAsWritten(reference, reason).Err?
            && e == RuntimeException(ProcessingPrefix + FailureBodyAsWritten(reference, reason).error.message)
    ensures '%' !in reference ==> e == RuntimeException(ProcessingPrefix + "Format specifier '%s'")
  {
    FailedPaymentMailAlwaysThrows(reference, reason);
    RuntimeException(ProcessingPrefix + FailureBodyAsWritten(reference, reason).error.message)
  }
  const MissingUserText := "booking user is null"
  const MissingRoomText := "booking room is null"

  /** What the reconciliation reads before it writes: the booking, its guest and, for a
      successful payment, its room's title. */
  datatype Settlement = Settlement(booking: Booking, guest: User, roomTitle: Option<string>)

  /** The reads of `updatePaymentBooking`, with every exception wrapped the way its outer catch
      wraps it: a blank reference, an unknown booking, a booking without a user and, for a
      successful payment, a booking without a room. */
  function CheckPaymentUpdate(rows: seq<Booking>, users: seq<User>, rooms: seq<Room>, req: PaymentRequest): (r: Result<Settlement, Exception>)
    ensures r.Err? ==> r.error.RuntimeException?
    ensures !GivenReference(req.bookingReference) ==>
              r == Err(RuntimeException(ProcessingPrefix + "Referência da reserva é obrigatória"))
    ensures GivenReference(req.bookingReference) && FindByBookingReference(rows, req.bookingReference.value).None? ==>
              r == Err(RuntimeException(ProcessingPrefix + "Reserva não encontrada: " + req.bookingReference.value))
    ensures r.Ok? ==>
              && GivenReference(req.bookingReference)
              && r.value.booking == FindByBookingReference(rows, req.bookingReference.value).value
              && r.value.booking.userId == Some(r.value.guest.id) && r.value.guest in users
              && (req.success ==> exists room :: room in rooms && r.value.booking.roomId == Some(room.id)
                                                  && r.value.roomTitle == room.title)
    ensures GivenReference(req.bookingReference) && FindByBookingReference(rows, req.bookingReference.value).Some? ==>
              var b := FindByBookingReference(rows, req.bookingReference.value).value;
              var guest := if b.userId.None? then None else UserRepository.FindUserById(users, b.userId.value);
              var room := if b.roomId.None? then None else RoomRepository.FindRoomById(rooms, b.roomId.value);
              && (guest.None? ==> r == Err(RuntimeException(ProcessingPrefix + MissingUserText)))
              && (guest.Some? && !req.success ==> r == Ok(Settlement(b, guest.value, None)))
              && (guest.Some? && req.success && room.None? ==> r == Err(RuntimeException(ProcessingPrefix + MissingRoomText)))
              && (guest.Some? && req.success && room.Some? ==> r == Ok(Settlement(b, guest.value, room.value.title)))
  {
    if !GivenReference(req.bookingReference) then
      Err(RuntimeException(ProcessingPrefix + "Referência da reserva é obrigatória"))
    else
      var reference := req.bookingReference.value;
      match FindByBookingReference(rows, reference)
      case None => Err(RuntimeException(ProcessingPrefix + "Reserva não encontrada: " + reference))
      case Some(b) =>
        var guest := if b.userId.None? then None else UserRepository.FindUserById(users, b.userId.value);
        if guest.None? then Err(RuntimeException(ProcessingPrefix + MissingUserText))
        else if !req.success then Ok(Settlement(b, guest.value, None))
        else
          var room := if b.roomId.None? then None else RoomRepository.FindRoomById(rooms, b.roomId.value);
          if room.None? then Err(RuntimeException(ProcessingPrefix + MissingRoomText))
          else Ok(Settlement(b, guest.value, room.value.title))
  }

  /** The payment status the outcome stands for. */
  function Outcome(req: PaymentRequest): PaymentStatus {
    if req.success then COMPLETED else FAILED
  }

  /** The `PaymentEntity` the reconciliation saves. */
  function PaymentRecordFor(req: PaymentRequest, reference: string, b: Booking, now: DateTime): (p: PaymentRecord)
    ensures p.gateway == STRIPE && p.bookingReference == reference && p.userId == b.userId
    ensures p.amount == req.amount && p.transactionId == req.transactionId
    ensures p.paymentStatus == COMPLETED <==> req.success
    ensures p.paymentStatus == FAILED <==> !req.success
    ensures p.failureReason == if req.success then None else req.failureReason
  {
    PaymentRecord(STRIPE, req.amount, req.transactionId, Outcome(req), now, reference, b.userId,
                  if req.success then None else req.failureReason)
  }

  /** The text of the outcome mail. */
  function MailBody(req: PaymentRequest, s: Settlement, reference: string, showDate: Date -> string): string {
    if req.success then
      SuccessBody(s.guest.firstName, reference, s.booking.checkInDate, s.booking.checkOutDate,
                  s.roomTitle, req.amount, showDate)
    else FailureBody(reference, NullText(req.failureReason))
  }

  /** The mail sent to the guest about the outcome, carrying the given text. */
  function PaymentMail(req: PaymentRequest, s: Settlement, reference: string, body: string): (n: Notification)
    ensures n.recipient == s.guest.email && n.bookingReference == Some(reference) && n.notificationType == Some(EMAIL)
    ensures n.subject == if req.success then ConfirmedSubject else FailedSubject
  {
    Notification(s.guest.email, if req.success then ConfirmedSubject else FailedSubject,
                 body, Some(reference), Some(EMAIL))
  }

  /** The outcome mail with the outcome's text. */
  function OutcomeMail(req: PaymentRequest, s: Settlement, reference: string, showDate: Date -> string): Notification {
    PaymentMail(req, s, reference, MailBody(req, s, reference, showDate))
  }

  /** The payments table, append-only. */
  class PaymentTable {
    var rows: seq<PaymentRecord>

    constructor ()
      ensures rows == []
    {
      rows := [];
    }

    method Insert(p: PaymentRecord)
      modifies this
      ensures rows == old(rows) + [p]
    {
      rows := rows + [p];
    }
  }

  /** The writes of `updatePaymentBooking` once its reads succeeded: one payment record for the
      outcome, the booking's payment status set from it, and the outcome mail, whose failure is
      swallowed. */
  method Settle(bookings: BookingTable, payments: PaymentTable, outbox: Notifications.NotificationLog,
                s: Settlement, req: PaymentRequest, reference: string, now: DateTime,
                mail: Notification, mailFailure: Option<string>)
    requires bookings.Valid()
    modifies bookings, payments, outbox
    ensures bookings.Valid()
    ensures payments.rows == old(payments.rows) + [PaymentRecordFor(req, reference, s.booking, now)]
    ensures bookings.rows == ReplaceById(old(bookings.rows), s.booking.(paymentStatus := Some(Outcome(req))))
    ensures outbox.sent == old(outbox.sent) + [mail]
  {
    var record := PaymentRecordFor(req, reference, s.booking, now);
    var settled := s.booking.(paymentStatus := Some(Outcome(req)));
    bookings.Update(settled);
    payments.Insert(record);
    var _ := outbox.SendEmail(mail, mailFailure);
  }

  /** `updatePaymentBooking` as written (transactional, so a failure leaves every table as it
      was): the reads, then for a successful payment the writes of `Settle` with the confirmation
      mail. For a failed payment the failure text cannot be formatted
      (`FailedPaymentMailAlwaysThrows`): the outer catch wraps the formatting error, and the payment
      and booking saves made before it are rolled back, so nothing is recorded and no mail is sent. */
  method UpdatePaymentBooking(bookings: BookingTable, payments: PaymentTable, outbox: Notifications.NotificationLog,
                              users: seq<User>, rooms: seq<Room>, req: PaymentRequest, now: DateTime,
                              showDate: Date -> string, mailFailure: Option<string>)
    returns (r: Result<(), Exception>)
    requires bookings.Valid()
    modifies bookings, payments, outbox
    ensures bookings.Valid()
    ensures var check := CheckPaymentUpdate(old(bookings.rows), users, rooms, req);
            && (check.Err? ==> && r == Err(check.error)
                                && bookings.rows == old(bookings.rows) && payments.rows == old(payments.rows)
                                && outbox.sent == old(outbox.sent))
            && (check.Ok? && req.success ==>
                  var s := check.value; var reference := req.bookingReference.value;
                  && r == Ok(())
                  && payments.rows == old(payments.rows) + [PaymentRecordFor(req, reference, s.booking, now)]
                  && bookings.rows == ReplaceById(old(bookings.rows), s.booking.(paymentStatus := Some(COMPLETED)))
                  && outbox.sent == old(outbox.sent) + [OutcomeMail(req, s, reference, showDate)])
            && (check.Ok? && !req.success ==>
                  && r == Err(FailedPaymentError(req.bookingReference.value, NullText(req.failureReason)))
                  && bookings.rows == old(bookings.rows) && payments.rows == old(payments.rows)
                  && outbox.sent == old(outbox.sent))
  {
    var check := CheckPaymentUpdate(bookings.rows, users, rooms, req);
    if check.Err? {
      return Err(check.error);
    }
    var reference := req.bookingReference.value;
    if !req.success {
      return Err(FailedPaymentError(reference, NullText(req.failureReason)));
    }
    var mail := OutcomeMail(req, check.value, reference, showDate);
    Settle(bookings, payments, outbox, check.value, req, reference, now, mail, mailFailure);
    r := Ok(());
  }

  /** `updatePaymentBooking` as evidently intended, with the failure text formatted from the
      reference and the reason (`FailureBody`): once the reads succeed, either outcome appends its
      payment record, sets the booking's payment status to COMPLETED or FAILED and sends its mail. */
  method UpdatePaymentBookingCorrected(bookings: BookingTable, payments: PaymentTable, outbox: Notifications.NotificationLog,
                                       users: seq<User>, rooms: seq<Room>, req: PaymentRequest, now: DateTime,
                                       showDate: Date -> string, mailFailure: Option<string>)
    returns (r: Result<(), Exception>)
    requires bookings.Valid()
    modifies bookings, payments, outbox
    ensures bookings.Valid()
    ensures var check := CheckPaymentUpdate(old(bookings.rows), users, rooms, req);
            && (check.Err? ==> && r == Err(check.error)
                                && bookings.rows == old(bookings.rows) && payments.rows == old(payments.rows)
                                && outbox.sent == old(outbox.sent))
            && (check.Ok? ==> var s := check.value; var reference := req.bookingReference.value;
                              && r == Ok(())
                              && payments.rows == old(payments.rows) + [PaymentRecordFor(req, reference, s.booking, now)]
                              && bookings.rows == ReplaceById(old(bookings.rows), s.booking.(paymentStatus := Some(Outcome(req))))
                              && outbox.sent == old(outbox.sent) + [OutcomeMail(req, s, reference, showDate)])
    ensures CheckPaymentUpdate(old(bookings.rows), users, rooms, req).Ok? && !req.success ==>
              && payments.rows[|payments.rows| - 1].paymentStatus == FAILED
              && outbox.sent[|outbox.sent| - 1].subject == FailedSubject
  {
    var check := CheckPaymentUpdate(bookings.rows, users, rooms, req);
    if check.Err? {
      return Err(check.error);
    }
    var reference := req.bookingReference.value;
    var mail := OutcomeMail(req, check.value, reference, showDate);
    Settle(bookings, payments, outbox, check.value, req, reference, now, mail, mailFailure);
    r := Ok(());
  }

  predicate DistinctReferences(rows: seq<Booking>) {
    forall i, j :: 0 <= i < j < |rows| ==> rows[i].bookingReference != rows[j].bookingReference
  }

  /** After the reconciliation the reference finds the booking with the new payment status,
      and every other booking is untouched. */
  lemma SettledBookingFound(rows: seq<Booking>, reference: string, status: PaymentStatus)
    requires IdsAscending(rows) && DistinctReferences(rows)
    requires FindByBookingReference(rows, reference).Some?
    ensures var b := FindByBookingReference(rows, reference).value;
            var settled := b.(paymentStatus := Some(status));
            && FindByBookingReference(ReplaceById(rows, settled), reference) == Some(settled)
            && forall x :: x in rows && x.id != b.id ==> x in ReplaceById(rows, settled)
  {
    var b := FindByBookingReference(rows, reference).value;
    var settled := b.(paymentStatus := Some(status));
    var after := ReplaceById(rows, settled);
    var k :| 0 <= k < |rows| && rows[k] == b;
    assert after[k] == settled;
    forall i | 0 <= i < |after| && after[i].bookingReference == reference
      ensures after[i] == settled
    {
    }
    forall x | x in rows && x.id != b.id ensures x in after {
      var i :| 0 <= i < |rows| && rows[i] == x;
      assert after[i] == x;
    }
  }

  /** A repeated outcome for the same reference leaves the bookings as the first one left them. */
  lemma RepeatedOutcomeKeepsBookings(rows: seq<Booking>, reference: string, status: PaymentStatus)
    requires IdsAscending(rows) && DistinctReferences(rows)
    requires FindByBookingReference(rows, reference).Some?
    ensures var settled := FindByBookingReference(rows, reference).value.(paymentStatus := Some(status));
            var after := ReplaceById(rows, settled);
            && FindByBookingReference(after, reference) == Some(settled)
            && ReplaceById(after, settled.(paymentStatus := Some(status))) == after
  {
    SettledBookingFound(rows, reference, status);
    var settled := FindByBookingReference(rows, reference).value.(paymentStatus := Some(status));
    var after := ReplaceById(rows, settled);
    assert ReplaceById(after, settled) == after;
  }
}
