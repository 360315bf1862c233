/** `UserServiceImpl`: registration, login, the current user, and the own-account update and
    deletion. The password encoder, its matcher and the JWT issuer are parameters; the
    authenticated principal's e-mail is passed in. */
module UserService {
  import opened Wrappers
  import opened Entities
  import opened Exceptions
  import opened Seqs
  import opened UserRepository
  import BookingRepository
  import PasswordResetTokenRepository

  datatype RegistrationRequest = RegistrationRequest(
    firstName: string, lastName: string, email: string, phoneNumber: string,
    role: Option<UserRole>, password: string)

  datatype LoginRequest = LoginRequest(email: string, password: string)

  /** The login response: role, token and active flag (the fixed "6 months" label is left out). */
  datatype LoginResponse = LoginResponse(role: UserRole, token: string, isActive: bool)

  /** The non-null fields of a `UserDTO` sent to update one's own account. */
  datatype UserPatch = UserPatch(
    email: Option<string>, firstName: Option<string>, lastName: Option<string>,
    phoneNumber: Option<string>, password: Option<string>)

  /** The user `registerUser` builds before saving: role CUSTOMER unless the request names one,
      active, and the encoded password. */
  function NewUser(req: RegistrationRequest, encode: string -> string): (u: User)
    ensures u.role == (if req.role.Some? then req.role.value else CUSTOMER)
    ensures u.isActive && u.password == encode(req.password) && u.email == req.email
  {
    User(0, req.email, encode(req.password), Some(req.firstName), Some(req.lastName),
         Some(req.phoneNumber), if req.role.Some? then req.role.value else CUSTOMER, true)
  }

  /** `registerUser`. */
  method RegisterUser(users: UserTable, req: RegistrationRequest, encode: string -> string)
    returns (r: Result<User, Exception>)
    requires users.Valid()
    modifies users
    ensures users.Valid()
    ensures r.Ok? <==> UserValid(NewUser(req, encode)) && !EmailInUse(old(users.rows), req.email)
    ensures r.Ok? ==> r.value == NewUser(req, encode).(id := old(users.nextId))
                      && users.rows == old(users.rows) + [r.value]
    ensures r.Err? ==> users.rows == old(users.rows)
  {
    r := users.Insert(NewUser(req, encode));
  }

  /** `loginUser`: an unknown e-mail, then a password the encoder does not match, fail in that
      order; otherwise the token for the user's e-mail with the user's role and active flag. */
  function LoginUser(rows: seq<User>, req: LoginRequest, matches: (string, string) -> bool,
                     generateToken: string -> string): (r: Result<LoginResponse, Exception>)
    ensures FindByEmail(rows, req.email).None? ==> r == Err(NotFoundException("E-mail não encontrado"))
    ensures FindByEmail(rows, req.email).Some? && !matches(req.password, FindByEmail(rows, req.email).value.password) ==>
              r == Err(InvalidCredentialException("A senha não corresponde"))
    ensures r.Ok? ==> var u := FindByEmail(rows, req.email).value;
                      matches(req.password, u.password) && r.value == LoginResponse(u.role, generateToken(u.email), u.isActive)
    ensures FindByEmail(rows, req.email).Some? && matches(req.password, FindByEmail(rows, req.email).value.password) ==>
              r.Ok?
  {
    match FindByEmail(rows, req.email)
    case None => Err(NotFoundException("E-mail não encontrado"))
    case Some(u) =>
      if !matches(req.password, u.password) then Err(InvalidCredentialException("A senha não corresponde"))
      else Ok(LoginResponse(u.role, generateToken(u.email), u.isActive))
  }

  /** With an encoder whose matcher accepts every password against its own encoding, a user
      just registered logs in with the same e-mail and password and gets the registered role. */
  lemma RegisteredUserCanLogIn(rows: seq<User>, nextId: int, req: RegistrationRequest, encode: string -> string,
                               matches: (string, string) -> bool, generateToken: string -> string)
    requires !EmailInUse(rows, req.email)
    requires forall p :: matches(p, encode(p))
    ensures var u := NewUser(req, encode).(id := nextId);
            LoginUser(rows + [u], LoginRequest(req.email, req.password), matches, generateToken)
              == Ok(LoginResponse(u.role, generateToken(req.email), true))
  {
    var u := NewUser(req, encode).(id := nextId);
    var found := FindByEmail(rows + [u], req.email);
    assert u in rows + [u];
    assert forall x :: x in rows + [u] && x.email == req.email ==> x == u by {
      forall x | x in rows + [u] && x.email == req.email ensures x == u {
        var k :| 0 <= k < |rows + [u]| && (rows + [u])[k] == x;
        assert k == |rows|;
      }
    }
  }

  /** `getCurrentLoggedInUser`: the user whose e-mail is the principal's name. */
  function GetCurrentLoggedInUser(rows: seq<User>, principal: string): (r: Result<User, Exception>)
    ensures r.Ok? <==> FindByEmail(rows, principal).Some?
    ensures r.Ok? ==> r.value in rows && r.value.email == principal
    ensures r.Err? ==> r.error == NotFoundException("Usuário não encontrado")
  {
    match FindByEmail(rows, principal)
    case None => Err(NotFoundException("Usuário não encontrado"))
    case Some(u) => Ok(u)
  }

  /** The field updates of `updateOwnAccount`. */
  function ApplyUserPatch(u: User, p: UserPatch, encode: string -> string): (v: User)
    ensures v.id == u.id && v.role == u.role && v.isActive == u.isActive
    ensures v.email == (if p.email.Some? then p.email.value else u.email)
    ensures v.firstName == (if p.firstName.Some? then p.firstName else u.firstName)
    ensures v.lastName == (if p.lastName.Some? then p.lastName else u.lastName)
    ensures v.phoneNumber == (if p.phoneNumber.Some? then p.phoneNumber else u.phoneNumber)
    ensures v.password == (if p.password.Some? && p.password.value != "" then encode(p.password.value) else u.password)
  {
    u.(email := p.email.GetOr(u.email),
       firstName := if p.firstName.Some? then p.firstName else u.firstName,
       lastName := if p.lastName.Some? then p.lastName else u.lastName,
       phoneNumber := if p.phoneNumber.Some? then p.phoneNumber else u.phoneNumber,
       password := if p.password.Some? && p.password.value != "" then encode(p.password.value) else u.password)
  }

  /** An empty patch, or one whose only password is empty, leaves the user as it was. */
  lemma EmptyPatchChangesNothing(u: User, password: Option<string>, encode: string -> string)
    requires password.None? || password == Some("")
    ensures ApplyUserPatch(u, UserPatch(None, None, None, None, password), encode) == u
  {
  }

  /** `updateOwnAccount`: the current user with the patch applied, saved. */
  method UpdateOwnAccount(users: UserTable, principal: string, p: UserPatch, encode: string -> string)
    returns (r: Result<(), Exception>)
    requires users.Valid()
    modifies users
    ensures users.Valid()
    ensures GetCurrentLoggedInUser(old(users.rows), principal).Err? ==>
              r == Err(NotFoundException("Usuário não encontrado")) && users.rows == old(users.rows)
    ensures GetCurrentLoggedInUser(old(users.rows), principal).Ok? ==>
              var v := ApplyUserPatch(GetCurrentLoggedInUser(old(users.rows), principal).value, p, encode);
              && (r.Ok? <==> UserValid(v) && !EmailTaken(old(users.rows), v.email, v.id))
              && (r.Ok? ==> users.rows == ReplaceUser(old(users.rows), v))
              && (r.Err? ==> users.rows == old(users.rows))
  {
    var current := GetCurrentLoggedInUser(users.rows, principal);
    if current.Err? {
      return Err(current.error);
    }
    var saved := users.Update(ApplyUserPatch(current.value, p, encode));
    if saved.Err? {
      return Err(saved.error);
    }
    r := Ok(());
  }

  /** Some booking or reset token still references the user, so the row cannot be deleted.
      Payments also reference their user, but every payment copies the user of an existing
      booking and bookings are never deleted, so a user with a payment already has a booking. */
  predicate UserReferenced(id: int, bookings: seq<Booking>, tokens: seq<PasswordResetToken>) {
    (exists b :: b in bookings && b.userId == Some(id)) || (exists t :: t in tokens && t.userId == id)
  }

  /** `deleteOwnAccount`: exactly the current user's row is removed; a booking or reset token
      that still references the user makes the delete violate its foreign key. */
  method DeleteOwnAccount(users: UserTable, bookings: BookingRepository.BookingTable,
                          tokens: PasswordResetTokenRepository.TokenTable, principal: string)
    returns (r: Result<(), Exception>)
    requires users.Valid()
    modifies users
    ensures users.Valid()
    ensures GetCurrentLoggedInUser(old(users.rows), principal).Err? ==>
              r == Err(NotFoundException("Usuário não encontrado"))
    ensures GetCurrentLoggedInUser(old(users.rows), principal).Ok? ==>
              var u := GetCurrentLoggedInUser(old(users.rows), principal).value;
              && (r.Ok? <==> !UserReferenced(u.id, bookings.rows, tokens.rows))
              && (r.Err? ==> r.error.DataIntegrityViolationException?)
              && (r.Ok? ==> forall x :: x in users.rows <==> x in old(users.rows) && x != u)
    ensures r.Err? ==> users.rows == old(users.rows)
  {
    var current := GetCurrentLoggedInUser(users.rows, principal);
    if current.Err? {
      return Err(current.error);
    }
    var u := current.value;
    if UserReferenced(u.id, bookings.rows, tokens.rows) {
      return Err(DataIntegrityViolationException("users referenced by a foreign key"));
    }
    ghost var before := users.rows;
    users.Delete(u.id);
    forall x | x in before && x != u ensures x.id != u.id {
      var i :| 0 <= i < |before| && before[i] == x;
      var j :| 0 <= j < |before| && before[j] == u;
      assert i != j;
      if i < j { assert OrderedDistinct(before[i], before[j]); }
      else { assert OrderedDistinct(before[j], before[i]); }
    }
    r := Ok(());
  }
}
