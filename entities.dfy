/** The persistent records of the hotel backend and their field constraints. Dates are day
    numbers, instants are nanoseconds, money read from the database is in hundredths. */
module Entities {
  import opened Wrappers
  import Text

  /** `LocalDate` as a day number. */
  type Date = int
  /** `LocalDateTime` as nanoseconds on a fixed time line. */
  type DateTime = int
  /** A `BigDecimal` money column (scale 2) in hundredths. */
  type Cents = int

  const NanosPerMinute: int := 60_000_000_000

  datatype RoomType = SINGLE | DOUBLE | TRIPLE | SUIT
  datatype BookingStatus = BOOKED | CHECKED_IN | CHECKED_OUT | CANCELLED
  datatype PaymentStatus = PENDING | COMPLETED | FAILED | REFUNDED | REVERSED
  datatype UserRole = ADMIN | CUSTOMER
  datatype PaymentGateway = STRIPE
  datatype NotificationType = EMAIL

  /** The enum constant's name, as stored by `@Enumerated(EnumType.STRING)`. */
  function RoomTypeName(t: RoomType): string {
    match t
    case SINGLE => "SINGLE"
    case DOUBLE => "DOUBLE"
    case TRIPLE => "TRIPLE"
    case SUIT => "SUIT"
  }

  /** A row of `rooms`. Nullable columns are options; the image is the raw LOB. */
  datatype Room = Room(
    id: int,
    roomNumber: Option<int>,
    roomType: RoomType,
    pricePerNight: Option<Cents>,
    capacity: Option<int>,
    description: Option<string>,
    title: Option<string>,
    imageData: Option<seq<bv8>>)

  /** The bean-validation constraints of `Room`: `@Min(1)` on the room number and the capacity,
      `@DecimalMin("0.1")` (ten hundredths) on the price. A null value satisfies each of them;
      `@NotNull` on the type holds by construction. */
  predicate RoomValid(r: Room) {
    && (r.roomNumber.Some? ==> r.roomNumber.value >= 1)
    && (r.pricePerNight.Some? ==> r.pricePerNight.value >= 10)
    && (r.capacity.Some? ==> r.capacity.value >= 1)
  }

  /** `@Column(unique = true)` on the room number: no two rows share a non-null number. */
  predicate UniqueRoomNumbers(rooms: seq<Room>) {
    forall i, j :: 0 <= i < j < |rooms| && rooms[i].roomNumber.Some? ==> rooms[i].roomNumber != rooms[j].roomNumber
  }

  /** A row of `users`; the password column holds the encoder's output. */
  datatype User = User(
    id: int,
    email: string,
    password: string,
    firstName: Option<string>,
    lastName: Option<string>,
    phoneNumber: Option<string>,
    role: UserRole,
    isActive: bool)

  /** A row of `bookings`. User and room are foreign keys; legacy rows may hold nulls. */
  datatype Booking = Booking(
    id: int,
    userId: Option<int>,
    roomId: Option<int>,
    checkInDate: Option<Date>,
    checkOutDate: Option<Date>,
    totalPrice: Option<Cents>,
    bookingReference: string,
    bookingStatus: Option<BookingStatus>,
    paymentStatus: Option<PaymentStatus>,
    createdAt: DateTime)

  /** A `BigDecimal` received from a client: the value `unscaled / 10^scale`. */
  datatype Decimal = Decimal(unscaled: int, scale: nat)

  /** A row of the payments table, one per reconciled gateway outcome. */
  datatype PaymentRecord = PaymentRecord(
    gateway: PaymentGateway,
    amount: Option<Decimal>,
    transactionId: Option<string>,
    paymentStatus: PaymentStatus,
    paymentDate: DateTime,
    bookingReference: string,
    userId: Option<int>,
    failureReason: Option<string>)

  /** An outgoing message as handed to the notification sender. */
  datatype Notification = Notification(
    recipient: string,
    subject: string,
    body: string,
    bookingReference: Option<string>,
    notificationType: Option<NotificationType>)

  /** A row of `password_reset_token`; `token` is unique (`uk_token`). */
  datatype PasswordResetToken = PasswordResetToken(
    id: int,
    token: string,
    userId: int,
    expiryDate: DateTime,
    used: bool)

  /** `PasswordResetToken.isExpired`: the clock is strictly after the expiry instant. */
  predicate IsExpired(t: PasswordResetToken, now: DateTime) {
    now > t.expiryDate
  }

  /** A token is still valid at its expiry instant and expired at every later one; once expired
      it stays expired. */
  lemma ExpiryBoundary(t: PasswordResetToken, now: DateTime, later: DateTime)
    requires now <= later
    ensures !IsExpired(t, t.expiryDate)
    ensures IsExpired(t, t.expiryDate + 1)
    ensures IsExpired(t, now) ==> IsExpired(t, later)
  {
  }

  /** `RoomDTO`: the room fields sent to clients, with the image replaced by its URL. */
  datatype RoomDTO = RoomDTO(
    id: int,
    roomNumber: Option<int>,
    roomType: RoomType,
    pricePerNight: Option<Cents>,
    capacity: Option<int>,
    description: Option<string>,
    title: Option<string>,
    imageUrl: Option<string>)

  /** The ModelMapper copy of a room: same fields, no image URL. */
  function ToRoomDTO(r: Room): (d: RoomDTO)
    ensures d.id == r.id && d.imageUrl == None
  {
    RoomDTO(r.id, r.roomNumber, r.roomType, r.pricePerNight, r.capacity, r.description, r.title, None)
  }

  /** The path under which a room's image is served. */
  function RoomImageUrl(roomId: int): string {
    "/api/rooms/" + Text.IntToString(roomId) + "/image"
  }
}
