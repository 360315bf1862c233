# Pousada hotel booking: a Dafny model of its booking, payment, room, account and password-reset logic

This project models the business core of the Pousada ("Quinta do Ypuã") hotel booking system:

- the Spring backend's booking workflow, with its two room-availability rules, the booking-reference generator, payment-intent validation and payment reconciliation;
- room administration, user accounts, administrator seeding and the password-reset token lifecycle;
- the mapping of exceptions to HTTP responses;
- the React password-reset page, with its password-strength rule and the order of its form checks.

It proves properties of the model in Dafny.

## How the model is laid out

- **Tables.** Each table is a class whose `rows` field is a sequence in insertion order, plus the identity counter `nextId`. The tables are `BookingTable`, `RoomTable`, `UserTable`, `TokenTable`, `ReferenceStore`, `PaymentTable` and `NotificationLog`.
  - A ghost `Valid()` states the table's invariant: ascending ids and the unique columns.
  - `save` on a new entity is `Insert`; on an existing entity it is `Update`.
  - A bean-validation failure and a unique-key violation come back as errors and leave the table unchanged.
- **Queries.** JPQL queries are functions over those sequences. They follow SQL's null semantics: a null column makes a comparison unknown, and `NOT IN` over a list holding a null is never true. `ORDER BY id DESC` is the reversal of a table kept in id order.
- **Service methods.** Each service method is a method over the tables it touches.
  - Methods marked `@Transactional` (`updatePaymentBooking`, `createPasswordResetTokenForUser`, `resetPassword`) leave every table as it was when they fail. An identity value that was drawn is not given back.
  - `createBooking` is not transactional. A mail failure there reaches the caller, and the saved booking and reference stay.
- **Values.**
  - Dates are day numbers and instants are nanoseconds.
  - Money read from the database is in hundredths.
  - A client-supplied `BigDecimal` is `Decimal(unscaled, scale)`.
  - Nullable columns and fields are `Option`s.
- **Parameters.** The clock, the authenticated principal, the password encoder and matcher, the JWT issuer, the payment gateway, the mail server's outcome, the random draw (a nondeterministic choice) and the page's HTTP outcome are all parameters.

Where this model departs from the usual description of the system, it follows the code:

- **Booking history.** `findBookingHistoryByUserId` does not return every booking of the user. Its select list reads `b.room.*`, which is an implicit inner join, so a booking without a room is not listed.
- **Room titles.** `RoomDTO.java` declares no `title` field, but `RoomServiceImpl` and the projection queries read and write one. The model gives the DTO a title.
- **Files not modelled.** The `Booking`, `User` and `PaymentEntity` entity files, the enum files, `ResourceNotFoundException`, `InvalidCredentialException`, `BookingReference`, `PaymentRequest` and `ApiService.js` are not part of this model. Their fields, constants and behaviour are inferred from the modelled code that uses them.

## Model

| member | source | states |
|---|---|---|
| Entities.ExpiryBoundary | HotelBackend/src/main/java/com/example/HotelBooking/entities/PasswordResetToken.java:27-29 | a token is not expired at its expiry instant, is expired one instant later, and once expired stays expired |
| Exceptions.Handle | HotelBackend/src/main/java/com/example/HotelBooking/exceptions/GlobalExceptionHandler.java:13-50 | the body status always equals the HTTP status; 404 iff NotFoundException, 400 iff InvalidBookingStateAndDateException, 409 iff DataIntegrityViolationException, 500 for every other exception; 404/400 repeat the message, 409 has the fixed room-in-use text, 500 prefixes "Erro interno no servidor: " |
| Exceptions.ValidationFailuresAreInternalErrors | HotelBackend/src/main/java/com/example/HotelBooking/exceptions/GlobalExceptionHandler.java:13-20 | illegal-argument, illegal-state, resource-not-found, invalid-credential and constraint errors all become 500, and a wrapped runtime error's message is shown after the fixed prefix |
| Exceptions.ConflictMessageIgnoresCause | HotelBackend/src/main/java/com/example/HotelBooking/exceptions/GlobalExceptionHandler.java:40-50 | the 409 response is the same whatever constraint was violated |
| StayDates.CheckStayDates | HotelBackend/src/main/java/com/example/HotelBooking/services/impl/BookingServiceImpl.java:109-119 | the dates pass iff today ≤ check-in < check-out; each of the three violations is reported exactly when it is the first rule that fails |
| StayDates.AcceptedStayHasNights | HotelBackend/src/main/java/com/example/HotelBooking/services/impl/BookingServiceImpl.java:109-119 | accepted dates give at least one night and never start before today |
| BookingRepository.BookingTable.Insert | HotelBackend/src/main/java/com/example/HotelBooking/services/impl/BookingServiceImpl.java:140 | saving a new booking appends it with the next identity id and keeps ids ascending |
| BookingRepository.BookingTable.Update | HotelBackend/src/main/java/com/example/HotelBooking/services/impl/BookingServiceImpl.java:230 | saving an existing booking replaces the row with its id and keeps the invariant |
| BookingRepository.FindById | HotelBackend/src/main/java/com/example/HotelBooking/services/impl/BookingServiceImpl.java:219-220 | the result is a stored booking with that id, and absent iff no booking has it |
| BookingRepository.FindByBookingReference | HotelBackend/src/main/java/com/example/HotelBooking/repositories/BookingRepository.java:16-23 | the result is a stored booking with exactly that reference, and absent iff none has it |
| BookingRepository.FindPaymentProjectionByBookingReference | HotelBackend/src/main/java/com/example/HotelBooking/repositories/BookingRepository.java:41-46 | the projection exists iff the reference lookup finds a booking, and carries that booking's id, reference, payment status and total |
| BookingRepository.CountInRange | HotelBackend/src/main/java/com/example/HotelBooking/repositories/BookingRepository.java:25-31 | the count is at most the number of rows and is zero iff no booking of the room has an endpoint in the closed date range |
| BookingRepository.IsRoomAvailable | HotelBackend/src/main/java/com/example/HotelBooking/repositories/BookingRepository.java:25-31 | available iff no booking of the room has its check-in or check-out date between the requested dates, both bounds included |
| BookingRepository.CancelledBookingStillBlocks | HotelBackend/src/main/java/com/example/HotelBooking/repositories/BookingRepository.java:25-28 | a cancelled or checked-out booking with an endpoint in range still makes the room unavailable |
| BookingRepository.AvailabilityIgnoresStatus | HotelBackend/src/main/java/com/example/HotelBooking/repositories/BookingRepository.java:25-31 | changing any booking's status never changes the availability answer |
| BookingRepository.OtherRoomsIrrelevant | HotelBackend/src/main/java/com/example/HotelBooking/repositories/BookingRepository.java:26 | adding bookings of other rooms never changes the answer |
| BookingRepository.ContainedRequestReportedAvailable | HotelBackend/src/main/java/com/example/HotelBooking/repositories/BookingRepository.java:27-28 | a request strictly inside an existing booking of the room is reported available |
| BookingRepository.SameDayTurnoverBlocks | HotelBackend/src/main/java/com/example/HotelBooking/repositories/BookingRepository.java:27-28 | a booking that checks out on the requested check-in day blocks the request |
| BookingRepository.FindBookingHistoryByUserId | HotelBackend/src/main/java/com/example/HotelBooking/repositories/BookingRepository.java:33-39 | the history holds exactly the user's bookings that have a room |
| BookingRepository.HistoryNewestFirst | HotelBackend/src/main/java/com/example/HotelBooking/repositories/BookingRepository.java:33-39 | over a table with ascending ids, the history has strictly descending ids |
| BookingRepository.FindAllNewestFirst | HotelBackend/src/main/java/com/example/HotelBooking/services/impl/BookingServiceImpl.java:52 | `findAll` by id descending holds every booking and, over ascending ids, is strictly descending |
| AvailabilityComparison.OverlapIsEndpointOrContainment | HotelBackend/src/main/java/com/example/HotelBooking/repositories/RoomRepository.java:21-22 | for a well-formed stay, the search's interval overlap is exactly the booking rule's endpoint test (BookingRepository.java:27-28) or containment |
| AvailabilityComparison.SearchStricterOnActiveBookings | HotelBackend/src/main/java/com/example/HotelBooking/repositories/RoomRepository.java:15-26 | when the room's bookings are active and well formed, a room the search lists is one booking creation accepts |
| AvailabilityComparison.ContainmentSplitsTheRules | HotelBackend/src/main/java/com/example/HotelBooking/repositories/BookingRepository.java:25-31 | a request inside an active stay is accepted by booking creation while the search hides the room |
| AvailabilityComparison.CancellationSplitsTheRules | HotelBackend/src/main/java/com/example/HotelBooking/repositories/RoomRepository.java:23 | a cancelled stay blocks booking creation while the search lists the room |
| RoomRepository.RoomTable.Insert | HotelBackend/src/main/java/com/example/HotelBooking/entities/Room.java:28-40 | a new room is saved iff it meets the bean constraints (number ≥ 1, price ≥ 0.10, capacity ≥ 1, nulls allowed) and its number is unused; the validation error comes first; a failure changes nothing |
| RoomRepository.RoomTable.Update | HotelBackend/src/main/java/com/example/HotelBooking/services/impl/RoomServiceImpl.java:91 | saving an existing room succeeds iff it meets the constraints and no other room has its number, and then replaces that row only |
| RoomRepository.RoomTable.Delete | HotelBackend/src/main/java/com/example/HotelBooking/services/impl/RoomServiceImpl.java:129 | the row with the id is gone and the others keep their order |
| RoomRepository.FindRoomById | HotelBackend/src/main/java/com/example/HotelBooking/services/impl/RoomServiceImpl.java:114-115 | the result is a stored room with that id, and absent iff none has it |
| RoomRepository.BlockingBookings | HotelBackend/src/main/java/com/example/HotelBooking/repositories/RoomRepository.java:19-23 | exactly the bookings that overlap the closed date range and are BOOKED or CHECKED_IN |
| RoomRepository.BlockedRoomIds | HotelBackend/src/main/java/com/example/HotelBooking/repositories/RoomRepository.java:18-24 | the subquery lists the room column of each blocking booking, nulls included |
| RoomRepository.SqlNotIn | HotelBackend/src/main/java/com/example/HotelBooking/repositories/RoomRepository.java:18 | `NOT IN` is false iff the id is listed, true iff it is not listed and no null is listed, unknown otherwise |
| RoomRepository.SelectedForStayMeaning | HotelBackend/src/main/java/com/example/HotelBooking/repositories/RoomRepository.java:15-26 | the outer `WHERE` selects a room iff no blocking booking names it or has a null room, and its type matches |
| RoomRepository.FindAvailableRooms | HotelBackend/src/main/java/com/example/HotelBooking/repositories/RoomRepository.java:15-31 | the result holds exactly the rooms of the type (any type for null) that are free for the stay |
| RoomRepository.FindAvailableRoomsProjection | HotelBackend/src/main/java/com/example/HotelBooking/repositories/RoomRepository.java:33-50 | the projection query selects the same rooms as the entity query, row for row |
| RoomRepository.NothingFreeNothingListed | HotelBackend/src/main/java/com/example/HotelBooking/repositories/RoomRepository.java:15-26 | when no room is free for the stay, the search is empty |
| RoomRepository.NullRoomBlocksEverything | HotelBackend/src/main/java/com/example/HotelBooking/repositories/RoomRepository.java:18-24 | one overlapping active booking with a null room empties every search |
| RoomRepository.InactiveBookingsIgnored | HotelBackend/src/main/java/com/example/HotelBooking/repositories/RoomRepository.java:23 | adding bookings that are not BOOKED or CHECKED_IN never changes the search |
| RoomRepository.SameDayTurnoverHidesRoom | HotelBackend/src/main/java/com/example/HotelBooking/repositories/RoomRepository.java:21-22 | an active booking checking out on the requested check-in day hides its room |
| RoomRepository.NoTypeListsEveryFreeRoom | HotelBackend/src/main/java/com/example/HotelBooking/repositories/RoomRepository.java:25 | with no type given and every room free, the search returns every room |
| RoomRepository.SearchRooms | HotelBackend/src/main/java/com/example/HotelBooking/repositories/RoomRepository.java:52-61 | the result holds exactly the rooms that match one of the six disjuncts |
| RoomRepository.SearchFindsTitleSubstring | HotelBackend/src/main/java/com/example/HotelBooking/repositories/RoomRepository.java:59 | a wildcard-free parameter contained, ignoring case, in the title finds the room |
| RoomRepository.AccentedTitleFound | HotelBackend/src/main/java/com/example/HotelBooking/repositories/RoomRepository.java:59 | example: accented capitals fold as well: the parameter "suíte" finds a room titled "SUÍTE MASTER" |
| RoomRepository.SearchFindsDescriptionSubstring | HotelBackend/src/main/java/com/example/HotelBooking/repositories/RoomRepository.java:58 | a wildcard-free parameter contained, ignoring case, in the description finds the room |
| RoomRepository.SearchFindsNumberDigits | HotelBackend/src/main/java/com/example/HotelBooking/repositories/RoomRepository.java:54 | a wildcard-free parameter contained in the room number's digits finds the room |
| RoomRepository.TypeDisjunctIsWholeName | HotelBackend/src/main/java/com/example/HotelBooking/repositories/RoomRepository.java:55 | for a wildcard-free parameter, the type matches iff it equals the whole type name, ignoring case |
| RoomRepository.PercentSelectsEveryRoom | HotelBackend/src/main/java/com/example/HotelBooking/repositories/RoomRepository.java:55 | the unescaped parameter `%` selects every room |
| Text.ToLower | HotelBackend/src/main/java/com/example/HotelBooking/repositories/RoomRepository.java:55 | `LOWER` keeps the length and maps each character on its own: A–Z and the Latin-1 capitals À–Þ other than × become their lower-case letters, every other character stays |
| Text.NotBlankIsNotIsBlank | HotelBackend/src/main/java/com/example/HotelBooking/payments/stripe/PaymentService.java:75 | `@NotBlank` and `String.isBlank` are different tests: a lone em space passes `@NotBlank` yet is blank, and a lone U+0001 fails `@NotBlank` yet is not blank |
| Text.LikeLiteral | HotelBackend/src/main/java/com/example/HotelBooking/repositories/RoomRepository.java:55 | `LIKE` with a wildcard-free pattern is string equality |
| Text.LikePercent | HotelBackend/src/main/java/com/example/HotelBooking/repositories/RoomRepository.java:55 | the pattern `%` matches every string |
| Text.LikePrefix | HotelBackend/src/main/java/com/example/HotelBooking/repositories/RoomRepository.java:54 | a literal followed by `%` matches exactly the strings it is a prefix of |
| Text.LikeLeadingPercent | HotelBackend/src/main/java/com/example/HotelBooking/repositories/RoomRepository.java:54 | a pattern starting with `%` matches iff its rest matches some suffix |
| Text.LikeContains | HotelBackend/src/main/java/com/example/HotelBooking/repositories/RoomRepository.java:54 | `LIKE %p%` for a literal `p` is the substring test |
| Text.LowerLikeContains | HotelBackend/src/main/java/com/example/HotelBooking/repositories/RoomRepository.java:58-59 | `LOWER(s) LIKE LOWER(CONCAT('%', p, '%'))` is case-insensitive containment |
| BookingCodeGenerator.AlphabetFacts | HotelBackend/src/main/java/com/example/HotelBooking/services/BookingCodeGenerator.java:34 | the alphabet has 35 distinct symbols and a drawn code never contains `0` |
| BookingCodeGenerator.GenerateRandomAlphaNumericCode | HotelBackend/src/main/java/com/example/HotelBooking/services/BookingCodeGenerator.java:32-44 | the code has the requested length and every character is from the alphabet |
| BookingCodeGenerator.ReferenceStore.SaveBookingReferenceToDatabase | HotelBackend/src/main/java/com/example/HotelBooking/services/BookingCodeGenerator.java:50-53 | an absent code is appended and the store stays duplicate-free |
| BookingCodeGenerator.ReferenceStore.GenerateBookingReference | HotelBackend/src/main/java/com/example/HotelBooking/services/BookingCodeGenerator.java:17-29 | a returned code has ten alphabet characters, was not stored before, and the store grew by exactly that code with earlier codes in place; into an empty store the first draw always succeeds |
| UserRepository.UserTable.Insert | HotelBackend/src/main/java/com/example/HotelBooking/services/impl/UserServiceImpl.java:55 | a new user is saved iff its e-mail, password and phone each hold a character above U+0020 (what `@NotBlank` is left with after trimming) and the e-mail is unused; failures change nothing |
| UserRepository.UserTable.Update | HotelBackend/src/main/java/com/example/HotelBooking/services/impl/UserServiceImpl.java:140 | saving an existing user succeeds iff it is valid and no other row has its e-mail, replacing its row only |
| UserRepository.UserTable.Delete | HotelBackend/src/main/java/com/example/HotelBooking/services/impl/UserServiceImpl.java:151 | the row with the id is gone and the others keep their order |
| UserRepository.FindByEmail | HotelBackend/src/main/java/com/example/HotelBooking/services/impl/UserServiceImpl.java:66-67 | the result is a stored user with that e-mail, and absent iff none has it |
| UserRepository.FindUserById | HotelBackend/src/main/java/com/example/HotelBooking/services/PasswordResetService.java:81 | the result is a stored user with that id, and absent iff none has it |
| UserRepository.FindByEmailUnique | HotelBackend/src/main/java/com/example/HotelBooking/services/impl/UserServiceImpl.java:123-124 | with distinct e-mails, looking up a stored user's e-mail finds that user |
| UserRepository.OwnEmailNotTaken | HotelBackend/src/main/java/com/example/HotelBooking/services/PasswordResetService.java:81-83 | a stored user's own e-mail is used by no other row, so saving it back cannot violate uniqueness |
| PasswordResetTokenRepository.Invalidated | HotelBackend/src/main/java/com/example/HotelBooking/repositories/PasswordResetTokenRepository.java:16-18 | every token of the user becomes used; every other row is unchanged, and the length is kept |
| PasswordResetTokenRepository.InvalidatedMeaning | HotelBackend/src/main/java/com/example/HotelBooking/repositories/PasswordResetTokenRepository.java:17 | the bulk update creates and deletes no row and keeps ids, strings, owners and expiries |
| PasswordResetTokenRepository.InvalidatedIdempotent | HotelBackend/src/main/java/com/example/HotelBooking/repositories/PasswordResetTokenRepository.java:17 | invalidating twice equals invalidating once |
| PasswordResetTokenRepository.InvalidatedCommutes | HotelBackend/src/main/java/com/example/HotelBooking/repositories/PasswordResetTokenRepository.java:17 | invalidations for two users commute |
| PasswordResetTokenRepository.InvalidatedKeepsOrder | HotelBackend/src/main/java/com/example/HotelBooking/repositories/PasswordResetTokenRepository.java:17 | the update keeps ids ascending and token strings unique |
| PasswordResetTokenRepository.TokenTable.Insert | HotelBackend/src/main/java/com/example/HotelBooking/entities/PasswordResetToken.java:9-11 | a token whose string is already stored violates `uk_token` and changes nothing; otherwise it is appended with the next id |
| PasswordResetTokenRepository.TokenTable.InvalidateExistingTokens | HotelBackend/src/main/java/com/example/HotelBooking/repositories/PasswordResetTokenRepository.java:16-18 | the table becomes its invalidated form and keeps its invariant |
| PasswordResetTokenRepository.TokenTable.Delete | HotelBackend/src/main/java/com/example/HotelBooking/services/PasswordResetService.java:72 | the row with the id is gone and the others keep their order |
| PasswordResetTokenRepository.FindByToken | HotelBackend/src/main/java/com/example/HotelBooking/repositories/PasswordResetTokenRepository.java:13 | the result is the stored token with exactly that string, and absent iff none has it |
| PasswordResetService.IssuedTokenIsTheOnlyUnused | HotelBackend/src/main/java/com/example/HotelBooking/services/PasswordResetService.java:37-46 | after issuing, the new token is the user's only unused one, stays valid for thirty minutes, and other users' tokens are unchanged |
| PasswordResetService.CreatePasswordResetTokenForUser | HotelBackend/src/main/java/com/example/HotelBooking/services/PasswordResetService.java:31-49 | an unknown e-mail fails with "Usuário não encontrado" and sends nothing; otherwise the tokens are invalidated, one new token is stored and one reset mail carrying the link is sent; any failure leaves the tokens as they were |
| PasswordResetService.CheckResetToken | HotelBackend/src/main/java/com/example/HotelBooking/services/PasswordResetService.java:67-79 | unknown, then expired, then used, each with its exception; the check passes iff the token is found, not expired and not used |
| PasswordResetService.TokenRedeemedOnce | HotelBackend/src/main/java/com/example/HotelBooking/services/PasswordResetService.java:81-86 | after a successful reset the same token fails at any later time |
| PasswordResetService.ResetPassword | HotelBackend/src/main/java/com/example/HotelBooking/services/PasswordResetService.java:67-87 | a failing check is the result and nothing changes (the expired token's delete is rolled back); on success only the owner's password becomes the encoded new one and all the owner's tokens become used |
| DefaultUserInitializer.SeededRows | HotelBackend/src/main/java/com/example/HotelBooking/config/DefaultUserInitializer.java:34-45 | seeding keeps every existing user and adds at most one row; when the admin is valid its e-mail is then found, and when the e-mail was absent the ADMIN user is appended with the next id |
| DefaultUserInitializer.ExistingUserKept | HotelBackend/src/main/java/com/example/HotelBooking/config/DefaultUserInitializer.java:34 | an existing user with the admin e-mail leaves the table unchanged, whatever its role |
| DefaultUserInitializer.SeedingIdempotent | HotelBackend/src/main/java/com/example/HotelBooking/config/DefaultUserInitializer.java:34-45 | seeding twice gives the table seeding once gave |
| DefaultUserInitializer.Run | HotelBackend/src/main/java/com/example/HotelBooking/config/DefaultUserInitializer.java:30-48 | the user table becomes the seeded table; start-up fails only when the admin is absent and the configured values break the user constraints |
| UserService.NewUser | HotelBackend/src/main/java/com/example/HotelBooking/services/impl/UserServiceImpl.java:39-53 | the role is the requested one, or CUSTOMER when none is given; the user is active and stores the encoded password |
| UserService.RegisterUser | HotelBackend/src/main/java/com/example/HotelBooking/services/impl/UserServiceImpl.java:37-62 | registration succeeds iff the new user is valid and its e-mail unused, appending exactly that user; otherwise nothing changes |
| UserService.LoginUser | HotelBackend/src/main/java/com/example/HotelBooking/services/impl/UserServiceImpl.java:64-84 | an unknown e-mail, then a mismatched password, fail with their exceptions; success returns the token for the user's e-mail, the role and the active flag, and a found e-mail with a matching password always succeeds |
| UserService.RegisteredUserCanLogIn | HotelBackend/src/main/java/com/example/HotelBooking/services/impl/UserServiceImpl.java:66-82 | a user just registered logs in with the same credentials and gets the registered role |
| UserService.GetCurrentLoggedInUser | HotelBackend/src/main/java/com/example/HotelBooking/services/impl/UserServiceImpl.java:118-125 | the principal's user if its e-mail is stored, otherwise NotFoundException("Usuário não encontrado") |
| UserService.ApplyUserPatch | HotelBackend/src/main/java/com/example/HotelBooking/services/impl/UserServiceImpl.java:132-139 | each non-null field is applied; the password changes only when non-empty, to its encoding; id, role and active flag never change |
| UserService.EmptyPatchChangesNothing | HotelBackend/src/main/java/com/example/HotelBooking/services/impl/UserServiceImpl.java:132-139 | an empty patch, or one whose only password is empty, leaves the user as it was |
| UserService.UpdateOwnAccount | HotelBackend/src/main/java/com/example/HotelBooking/services/impl/UserServiceImpl.java:127-146 | an unknown principal fails; otherwise the patched user replaces its row iff valid with an e-mail no other row uses |
| UserService.DeleteOwnAccount | HotelBackend/src/main/java/com/example/HotelBooking/services/impl/UserServiceImpl.java:148-157 | an unknown principal fails; otherwise exactly the current user is removed, unless a booking or token references it |
| Notifications.NotificationLog.SendEmail | HotelBackend/src/main/java/com/example/HotelBooking/services/impl/BookingServiceImpl.java:151 | the message is recorded, and the call fails iff the mail server reported a failure |
| BookingService.CalculateTotalPrice | HotelBackend/src/main/java/com/example/HotelBooking/services/impl/BookingServiceImpl.java:272-276 | the price per night times the nights; a room without a price throws NullPointerException |
| BookingService.TotalPriceProperties | HotelBackend/src/main/java/com/example/HotelBooking/services/impl/BookingServiceImpl.java:272-276 | pricing is additive over consecutive stays; for a valid room and accepted dates it is at least one night's price and at least 0.10 per night |
| BookingService.CheckCreateBooking | HotelBackend/src/main/java/com/example/HotelBooking/services/impl/BookingServiceImpl.java:105-126 | the checks run in order: user, then room ("Quarto não encontrado") before any date rule, then dates, availability ("O quarto não está disponível …") and price (a NullPointerException when it is null); the request succeeds iff the user and room are found, the dates pass, the room is available and it has a price, and then the total is the price per night times the nights, at least one night |
| BookingService.UnavailableIsNoDateMessage | HotelBackend/src/main/java/com/example/HotelBooking/services/impl/BookingServiceImpl.java:121-124 | the availability message differs from every date message |
| BookingService.DateRulesComeFirst | HotelBackend/src/main/java/com/example/HotelBooking/services/impl/BookingServiceImpl.java:109-119 | with user and room found, a failing date rule is the result, whatever availability and price |
| BookingService.UnavailableRoomRejected | HotelBackend/src/main/java/com/example/HotelBooking/services/impl/BookingServiceImpl.java:121-124 | accepted dates and an unavailable room give the availability error |
| BookingService.CreatedBookingBlocksRepeat | HotelBackend/src/main/java/com/example/HotelBooking/services/impl/BookingServiceImpl.java:129-140 | the booking just saved makes the same request unavailable |
| BookingService.CreatedBookingFoundByReference | HotelBackend/src/main/java/com/example/HotelBooking/services/impl/BookingServiceImpl.java:127-140 | a booking saved under a fresh reference is the one that reference finds |
| BookingService.CreateBooking | HotelBackend/src/main/java/com/example/HotelBooking/services/impl/BookingServiceImpl.java:103-158 | a failed check writes, draws and sends nothing; otherwise one fresh reference is stored, one BOOKED/PENDING booking with the user, room, dates and price is appended, and one mail with the payment link goes to the user; a mail failure is returned after the save; a request that passes the checks reaches that branch at least when the reference store is empty and one draw is allowed |
| BookingService.ApplyBookingPatch | HotelBackend/src/main/java/com/example/HotelBooking/services/impl/BookingServiceImpl.java:222-228 | each non-null status is applied and every other field is kept |
| BookingService.PatchIdempotent | HotelBackend/src/main/java/com/example/HotelBooking/services/impl/BookingServiceImpl.java:222-228 | applying a patch twice equals applying it once |
| BookingService.UpdateBooking | HotelBackend/src/main/java/com/example/HotelBooking/services/impl/BookingServiceImpl.java:213-236 | a null id, then an unknown id, fail with their messages and change nothing; otherwise only that row takes the patch |
| BookingService.WithDefaults | HotelBackend/src/main/java/com/example/HotelBooking/services/impl/BookingServiceImpl.java:66-80 | null statuses become BOOKED/PENDING; a null total is recomputed when both dates are present, and that fails iff the room has no price; nothing else changes |
| BookingService.WithDefaultsIdempotent | HotelBackend/src/main/java/com/example/HotelBooking/services/impl/BookingServiceImpl.java:66-80 | applying the defaults to a defaulted booking changes nothing |
| BookingService.Detail | HotelBackend/src/main/java/com/example/HotelBooking/services/impl/BookingServiceImpl.java:58-82 | a listed entry keeps the booking's id and reference and carries no image URL |
| BookingService.ListBookings | HotelBackend/src/main/java/com/example/HotelBooking/services/impl/BookingServiceImpl.java:54-89 | every entry is the detail of an input row that has a user and an existing room and whose defaults do not throw, every such row's detail is listed, and there are no more entries than rows |
| BookingService.GetAllBookings | HotelBackend/src/main/java/com/example/HotelBooking/services/impl/BookingServiceImpl.java:48-101 | every listed booking has both statuses, a user, and the room it references |
| BookingService.ListBookingsKeepsOrder | HotelBackend/src/main/java/com/example/HotelBooking/services/impl/BookingServiceImpl.java:54-89 | the stream keeps input order, so descending ids stay descending |
| BookingService.GetAllBookingsNewestFirst | HotelBackend/src/main/java/com/example/HotelBooking/services/impl/BookingServiceImpl.java:52-89 | over a table with ascending ids, the listing has strictly descending ids |
| BookingService.FindBookingByReferenceNo | HotelBackend/src/main/java/com/example/HotelBooking/services/impl/BookingServiceImpl.java:160-211 | an unknown reference, then a missing user, fail with their 404 messages; success is the listed entry of that booking with the room's image URL set |
| BookingService.LookupAgreesWithListing | HotelBackend/src/main/java/com/example/HotelBooking/services/impl/BookingServiceImpl.java:160-211 | with distinct references, every booking the listing keeps is found by its reference, with the same booking values |
| StringFormat.Print | HotelBackend/src/main/java/com/example/HotelBooking/payments/stripe/PaymentService.java:142-150 | printing a parsed format succeeds iff there are enough arguments for its `%s` conversions, and otherwise reports the missing argument |
| StringFormat.Format | HotelBackend/src/main/java/com/example/HotelBooking/payments/stripe/PaymentService.java:142-150 | `String.format` succeeds iff every conversion is known and there are enough arguments; an unknown conversion is reported before a missing argument |
| StringFormat.LiteralPrefix | HotelBackend/src/main/java/com/example/HotelBooking/payments/stripe/PaymentService.java:142-150 | text without `%` is copied as it is and changes neither the checks nor the argument count |
| StringFormat.StringSpecifier | HotelBackend/src/main/java/com/example/HotelBooking/payments/stripe/PaymentService.java:142-150 | a `%s` prints the next argument and leaves the rest to the remaining format |
| StringFormat.LiteralFormat | HotelBackend/src/main/java/com/example/HotelBooking/payments/stripe/PaymentService.java:142-150 | a format without `%` is its own output |
| StringFormat.TwoConversions | HotelBackend/src/main/java/com/example/HotelBooking/payments/stripe/PaymentService.java:142-150 | a two-`%s` template with two arguments prints each in its place |
| StringFormat.TwoConversionsOneArgument | HotelBackend/src/main/java/com/example/HotelBooking/payments/stripe/PaymentService.java:142-150 | the same template followed by any text, given one argument, always fails |
| PaymentService.ToLong | HotelBackend/src/main/java/com/example/HotelBooking/payments/stripe/PaymentService.java:58 | `longValue` keeps the low 64 bits: the result is a `long`, congruent to the input modulo 2^64, and equal to it when it fits |
| PaymentService.MinorUnitsTruncates | HotelBackend/src/main/java/com/example/HotelBooking/payments/stripe/PaymentService.java:58 | within the `long` range, the gateway amount is the largest whole number of hundredths not above the requested amount |
| PaymentService.SubCentAmountChargesNothing | HotelBackend/src/main/java/com/example/HotelBooking/payments/stripe/PaymentService.java:43-58 | a positive amount under one hundredth passes validation and is charged as zero |
| PaymentService.HugeAmountWraps | HotelBackend/src/main/java/com/example/HotelBooking/payments/stripe/PaymentService.java:58 | 2^63 hundredths wrap to the most negative `long` |
| PaymentService.CreatePaymentIntent | HotelBackend/src/main/java/com/example/HotelBooking/payments/stripe/PaymentService.java:39-68 | a null or blank reference, then an amount that is null or ≤ 0, then an unknown booking, then a COMPLETED payment, each fail with its exception before the gateway is called; otherwise the gateway gets the amount in minor units, "usd" and the reference; its client secret is the result, and its failure message comes back wrapped as "Erro ao criar pagamento: …" |
| PaymentService.IntentIgnoresTotalPrice | HotelBackend/src/main/java/com/example/HotelBooking/payments/stripe/PaymentService.java:49-61 | the booking's total price never affects the result, so the requested amount is not checked against it |
| PaymentService.RoundHalfUp | HotelBackend/src/main/java/com/example/HotelBooking/payments/stripe/PaymentService.java:115 | the rounded quotient is the nearest whole number, the larger one on a tie, as `%.2f` rounds a `BigDecimal` |
| PaymentService.AmountText | HotelBackend/src/main/java/com/example/HotelBooking/payments/stripe/PaymentService.java:115 | a null amount prints "nu" ("null" cut to the precision); otherwise the text starts with a minus sign iff the amount is negative, even when it rounds to zero, followed by the magnitude rounded half up to hundredths |
| PaymentService.NegativeSubCentAmountText | HotelBackend/src/main/java/com/example/HotelBooking/payments/stripe/PaymentService.java:115 | example: -0.001 prints "-0.00" |
| PaymentService.FailedPaymentMailAlwaysThrows | HotelBackend/src/main/java/com/example/HotelBooking/payments/stripe/PaymentService.java:142-150 | the failure text as written always throws, with the missing-argument error when the reference holds no `%` |
| PaymentService.FailureBody | HotelBackend/src/main/java/com/example/HotelBooking/payments/stripe/PaymentService.java:142-150 | with the reference and the reason as the two arguments, the failure text names both in their places |
| PaymentService.CheckPaymentUpdate | HotelBackend/src/main/java/com/example/HotelBooking/payments/stripe/PaymentService.java:74-115 | a blank reference, then an unknown booking, then a booking without a user, then (for a success) a booking without a room fail, each wrapped as "Erro ao processar pagamento: …"; a found booking with its user (and, for a success, its room) always yields the settlement with that booking, user and room title |
| PaymentService.PaymentRecordFor | HotelBackend/src/main/java/com/example/HotelBooking/payments/stripe/PaymentService.java:82-95 | the record has gateway STRIPE and the request's amount, transaction id, reference and user; its status is COMPLETED iff success and FAILED iff not; the failure reason is kept only on failure |
| PaymentService.PaymentMail | HotelBackend/src/main/java/com/example/HotelBooking/payments/stripe/PaymentService.java:97-141 | the mail goes to the booking's user, carries the reference and type EMAIL, and has the confirmation or failure subject according to the outcome |
| PaymentService.Settle | HotelBackend/src/main/java/com/example/HotelBooking/payments/stripe/PaymentService.java:82-139 | the writes after successful reads: exactly one payment record for the outcome is appended, only the booking with that id takes the new payment status, and the outcome mail is recorded whatever the mail server does |
| PaymentService.FailedPaymentError | HotelBackend/src/main/java/com/example/HotelBooking/payments/stripe/PaymentService.java:142-160 | for a failed payment the formatting error is rethrown wrapped as "Erro ao processar pagamento: …", which is "Erro ao processar pagamento: Format specifier '%s'" when the reference holds no `%` |
| PaymentService.UpdatePaymentBooking | HotelBackend/src/main/java/com/example/HotelBooking/payments/stripe/PaymentService.java:71-162 | as written: a failed read changes nothing and returns the wrapped error; a successful payment appends exactly one COMPLETED payment record, sets only that booking's payment status to COMPLETED and sends one confirmation mail whose failure is swallowed; a failed payment returns the wrapped formatting error and, rolled back, leaves payments, bookings and mails as they were |
| PaymentService.UpdatePaymentBookingCorrected | HotelBackend/src/main/java/com/example/HotelBooking/payments/stripe/PaymentService.java:71-162 | as intended, with the failure text formatted from the reference and the reason: a failed read changes nothing; otherwise exactly one payment record is appended, only that booking's payment status becomes COMPLETED or FAILED, and one mail is sent; for a failed payment the new record is FAILED and the mail has the failure subject |
| PaymentService.SettledBookingFound | HotelBackend/src/main/java/com/example/HotelBooking/payments/stripe/PaymentService.java:103-105 | after reconciliation the reference finds the booking with the new status, and every other booking is untouched |
| PaymentService.RepeatedOutcomeKeepsBookings | HotelBackend/src/main/java/com/example/HotelBooking/payments/stripe/PaymentService.java:137-139 | a repeated outcome for the same reference leaves the bookings as the first left them |
| RoomService.CheckImage | HotelBackend/src/main/java/com/example/HotelBooking/services/impl/RoomServiceImpl.java:37-42 | no file or an empty file keeps the image; a non-empty file is accepted iff its content type is exactly image/jpeg, image/png or image/jpg, and is otherwise refused with the fixed message |
| RoomService.ImageTypeIsExact | HotelBackend/src/main/java/com/example/HotelBooking/services/impl/RoomServiceImpl.java:39-40 | "image/PNG", "image/gif" and a missing type are refused |
| RoomService.AddRoom | HotelBackend/src/main/java/com/example/HotelBooking/services/impl/RoomServiceImpl.java:34-54 | the image check comes first; the room is added iff it has a type, meets the constraints and its number is unused; otherwise nothing changes |
| RoomService.ApplyRoomPatch | HotelBackend/src/main/java/com/example/HotelBooking/services/impl/RoomServiceImpl.java:61-90 | number and price are applied only when ≥ 0, capacity only when > 0, type, description and title when non-null, the image when the check produced one; the id is kept |
| RoomService.EmptyPatchKeepsRoom | HotelBackend/src/main/java/com/example/HotelBooking/services/impl/RoomServiceImpl.java:61-78 | an empty patch without an image leaves the room unchanged |
| RoomService.RoomPatchIdempotent | HotelBackend/src/main/java/com/example/HotelBooking/services/impl/RoomServiceImpl.java:61-90 | patching twice equals patching once |
| RoomService.GuardsWeakerThanRoomInvariant | HotelBackend/src/main/java/com/example/HotelBooking/services/impl/RoomServiceImpl.java:61-66 | room number 0, or a price under 0.10, passes the guards but gives a room the entity constraints refuse |
| RoomService.PatchWithinConstraintsKeepsRoomValid | HotelBackend/src/main/java/com/example/HotelBooking/services/impl/RoomServiceImpl.java:61-78 | a patch whose applied values meet the constraints keeps a valid room valid |
| RoomService.UpdateRoom | HotelBackend/src/main/java/com/example/HotelBooking/services/impl/RoomServiceImpl.java:56-96 | an unknown id, then a refused image, fail and change nothing; otherwise the patched room replaces its row iff it meets the constraints and its number is not another room's |
| RoomService.RoomView | HotelBackend/src/main/java/com/example/HotelBooking/services/impl/RoomServiceImpl.java:198-200 | every returned room carries the URL `/api/rooms/{id}/image` and otherwise the mapped fields |
| RoomService.WithImageUrls | HotelBackend/src/main/java/com/example/HotelBooking/services/impl/RoomServiceImpl.java:101-104 | the index loop gives each DTO the URL of the room at the same position |
| RoomService.GetAllRooms | HotelBackend/src/main/java/com/example/HotelBooking/services/impl/RoomServiceImpl.java:98-110 | the listing is every room by id descending, each with its URL |
| RoomService.AllRoomsNewestFirst | HotelBackend/src/main/java/com/example/HotelBooking/services/impl/RoomServiceImpl.java:100 | over ascending ids, the listing has strictly descending ids and holds every room |
| RoomService.SearchRoom | HotelBackend/src/main/java/com/example/HotelBooking/services/impl/RoomServiceImpl.java:172-184 | the result is the search query's rooms, in order, each with its URL |
| RoomService.GetAvailableRooms | HotelBackend/src/main/java/com/example/HotelBooking/services/impl/RoomServiceImpl.java:136-164 | the three date rules give their messages; otherwise the result holds exactly the free rooms of the type, each with its URL |
| RoomService.SearchAndBookingShareDateRules | HotelBackend/src/main/java/com/example/HotelBooking/services/impl/RoomServiceImpl.java:138-146 | search and booking creation refuse exactly the same date pairs, by the same rule |
| RoomService.GetRoomById | HotelBackend/src/main/java/com/example/HotelBooking/services/impl/RoomServiceImpl.java:112-123 | NotFound iff no room has the id; otherwise that room's view with its URL |
| RoomService.GetRoomImageData | HotelBackend/src/main/java/com/example/HotelBooking/services/impl/RoomServiceImpl.java:186-191 | NotFound iff no room has the id; otherwise the stored bytes, possibly none |
| RoomService.DeleteRoom | HotelBackend/src/main/java/com/example/HotelBooking/services/impl/RoomServiceImpl.java:125-134 | an unknown id gives NotFound; otherwise exactly that room is removed, unless a booking references it (a foreign-key violation) |
| ResetPasswordPage.LookaheadIsContains | hotelfrontend/src/component/auth/ResetPasswordPage.jsx:7 | on a string without line breaks, a `(?=.*[class])` look-ahead succeeds iff the string contains the class |
| ResetPasswordPage.ValidatePasswordStrength | hotelfrontend/src/component/auth/ResetPasswordPage.jsx:5-9 | the regular expression accepts exactly the passwords with ≥ 8 characters, no line break, and at least one a–z, one A–Z, one 0–9 and one listed special character |
| ResetPasswordPage.ShortPasswordRejected | hotelfrontend/src/component/auth/ResetPasswordPage.jsx:7 | any password shorter than 8 is rejected |
| ResetPasswordPage.LineTerminatorRejected | hotelfrontend/src/component/auth/ResetPasswordPage.jsx:7 | a line terminator anywhere makes the password fail |
| ResetPasswordPage.AccentedPasswordFails | hotelfrontend/src/component/auth/ResetPasswordPage.jsx:7 | example: accented letters satisfy neither ASCII letter class, so "SENHÃ1!éé" fails |
| ResetPasswordPage.AsciiLetterPasswordPasses | hotelfrontend/src/component/auth/ResetPasswordPage.jsx:7 | example: with one ASCII `a` in place of `Ã`, "SENHa1!éé" passes |
| ResetPasswordPage.UnlistedSymbolsDoNotCount | hotelfrontend/src/component/auth/ResetPasswordPage.jsx:7 | a password of letters, digits, spaces, tildes and backquotes has no special character and fails |
| ResetPasswordPage.FirstProblem | hotelfrontend/src/component/auth/ResetPasswordPage.jsx:28-39 | there is no problem iff the password is non-empty, confirmed and meets the policy; an empty field is reported first |
| ResetPasswordPage.ChecksRunInOrder | hotelfrontend/src/component/auth/ResetPasswordPage.jsx:28-39 | a mismatch is reported before strength; the weak-password message appears iff both fields are filled and equal and the policy fails |
| ResetPasswordPage.RejectionText | hotelfrontend/src/component/auth/ResetPasswordPage.jsx:46 | the server's message when present and non-empty, otherwise the error's own message |
| ResetPasswordPage.Page.constructor | hotelfrontend/src/component/auth/ResetPasswordPage.jsx:12-22 | the page starts with empty fields and messages, not loading, and no request made |
| ResetPasswordPage.Page.Render | hotelfrontend/src/component/auth/ResetPasswordPage.jsx:52-122 | without a token (missing or empty) only "Token inválido ou expirado." is shown; otherwise the form shows each non-empty message and disables the button while loading |
| ResetPasswordPage.Page.TypeNewPassword | hotelfrontend/src/component/auth/ResetPasswordPage.jsx:69 | the first field takes the typed value and nothing else changes |
| ResetPasswordPage.Page.TypeConfirmPassword | hotelfrontend/src/component/auth/ResetPasswordPage.jsx:98 | the second field takes the typed value and nothing else changes |
| ResetPasswordPage.Page.HandleSubmit | hotelfrontend/src/component/auth/ResetPasswordPage.jsx:24-50 | the first failing check sets its message and no request is made; otherwise exactly one reset request carries the token and password, and the outcome sets the success message and the redirect, or the error; loading ends off |
| ResetPasswordPage.Page.Submit | hotelfrontend/src/component/auth/ResetPasswordPage.jsx:52-100 | without a token, or with an empty field (the inputs are `required`), nothing changes; otherwise a mismatch or a weak password sets its message and sends nothing, and a confirmed password that meets the policy sends exactly one request whose outcome sets the success message and redirect or the error, with loading off |

## Left out

- **Controllers, security and DTO mapping.** HTTP controllers, Spring Security, JWT signing and ModelMapper are not modelled beyond the field copies the services rely on. Their results are parameters (the principal, the issued token) or plain record copies.
- **The payment gateway.** Stripe is left out: the global API-key assignment and `PaymentIntent.create` become a `create` parameter that returns a client secret or an error message.
- **Mail delivery and the clock.** Mail delivery is a recorded message plus a parameter for the server's outcome. The clock (`LocalDate.now`, `LocalDateTime.now`) is a parameter.
- **Password hashing and randomness.** The password encoder and matcher are function parameters. UUIDs and random draws are parameters or a nondeterministic choice.
- **`getBookingsByCurrentUser`, `getMyBookingHistory`, `getAllUsers`, `getOwnAccountDetails`.** Only their query (`FindBookingHistoryByUserId`) and lookups are modelled, not the DTO building around them.
- **`getAllRoomTypes`.** It returns null, so there is nothing to state about it.
- **`getRoomImageDataById`.** It only delegates to `getRoomImageData`, which is modelled.
- **`deleteByToken`.** No modelled operation calls it.
- **Null inputs in requests.** A `BookingRequest` always has a room id and both dates, and a `RoomPatch` always names an id. A null there would make the source throw before any check.
- **Image bytes.** Reading an uploaded image never fails in the model: the wrapped "Erro ao processar a imagem." I/O error is left out.
- **`addRoom` ids.** The DTO's id is not carried into the new room. The identity column always assigns one.
- **Money scale.** Money read from the database is assumed to have scale 2 (hundredths).
- **Payment mail text.** The success mail renders dates through a `showDate` parameter. `%.2f` is written with a dot as the decimal separator, so the JVM locale is not modelled. Of `String.format`, only the `%s`, `%%` and `%n` conversions are modelled, and an unknown conversion character is the only other error.
- **NPE messages.** The messages of NullPointerExceptions (a booking without a user or room during reconciliation, a room without a price) are fixed texts standing in for the JVM's helpful-NPE messages.
- **The reset mail.** Its body is modelled as the reset link only. The fixed greeting and closing lines around it are left out.
- **Booking references.** A lookup by booking reference takes the first matching row. Two bookings with the same reference are assumed never to exist: every reference comes from the generator, which never repeats a stored code. So the error Spring Data raises when a single-result query finds two rows is left out, and the lemmas that need it require distinct references.
- **Concurrency.** Concurrent requests are not modelled: each operation runs alone. So are the database's isolation, and the page's asynchronous state updates between `setLoading(true)` and the response.
- **Show/hide toggles.** The reset page's password visibility buttons and its styling are left out.
- **Timed redirect.** The two-and-a-half-second redirect after a reset is a flag that records that it was scheduled.
- BookingCodeGenerator.ReferenceStore.GenerateBookingReference: the source retries with no bound. The model stops after `attempts` draws and then returns no code. `BookingService.CreateBooking` reports that case as `ReferenceExhausted`, which the source never throws.
- Text.ToLower: `LOWER` is folded for A–Z and the Latin-1 capitals À–Þ only. Capitals beyond Latin-1 (Latin Extended, Greek, Cyrillic) stay as they are, and no database collation or locale-specific case mapping is modelled, since the database engine is not part of this model.
- RoomRepository.SearchRooms: the title, description and type comparisons inherit `Text.ToLower`'s folding, so a search that differs from a title only in the case of a capital beyond Latin-1 is not found by the model.
- ResetPasswordPage.ValidatePasswordStrength: JavaScript counts a character outside the Basic Multilingual Plane as two UTF-16 units toward `.{8,}`. The model counts every character as one, so it can reject a password of such characters that the page accepts.

## Findings

| source | as written | input that shows it | evidently intended | confidence | as-written member | corrected member |
|---|---|---|---|---|---|---|
| HotelBackend/src/main/java/com/example/HotelBooking/payments/stripe/PaymentService.java:142-150 | the failure mail's format string has two `%s`, but the reference is concatenated onto the format string instead of being passed as an argument, so only the failure reason is an argument; `String.format` always throws a missing-argument error, the outer catch wraps it, and the transaction rolls back, so a failed payment is never recorded, its booking never becomes FAILED and no mail is sent | any failed payment, e.g. reference "ABC", reason "card declined" | pass the reference and the reason as the two arguments | high (not executed) | PaymentService.FailedPaymentMailAlwaysThrows | PaymentService.UpdatePaymentBookingCorrected |
