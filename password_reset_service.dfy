/** `PasswordResetService`: issuing a reset token for an e-mail and redeeming it for a new
    password. Both operations are transactional: a runtime exception rolls every table change
    back, though an identity value once drawn is not returned. */
module PasswordResetService {
  import opened Wrappers
  import opened Entities
  import opened Exceptions
  import opened Seqs
  import opened UserRepository
  import opened PasswordResetTokenRepository
  import opened Notifications

  const TokenLifetime: int := 30 * NanosPerMinute
  const ResetSubject: string := "Quinta do Ypuã - Redefinição de Senha"

  /** The link the reset e-mail carries. */
  function ResetLink(frontendUrl: string, token: string): string {
    frontendUrl + "/reset-password?token=" + token
  }

  function ResetMail(email: string, frontendUrl: string, token: string): Notification {
    Notification(email, ResetSubject, ResetLink(frontendUrl, token), None, None)
  }

  /** The foreign key of `password_reset_token.user_id`: every token's owner is a stored user. */
  predicate TokenOwnersExist(tokens: seq<PasswordResetToken>, users: seq<User>) {
    forall t :: t in tokens ==> FindUserById(users, t.userId).Some?
  }

  /** The token table after a successful issue: the user's tokens invalidated, then one new
      unused token valid for thirty minutes. */
  function IssuedTokens(rows: seq<PasswordResetToken>, nextId: int, userId: int, uuid: string, now: DateTime): seq<PasswordResetToken> {
    Invalidated(rows, userId) + [PasswordResetToken(nextId, uuid, userId, now + TokenLifetime, false)]
  }

  /** After issuing, the new token is the user's only unused one, it is not expired for the
      next thirty minutes, and other users' tokens are as they were. */
  lemma IssuedTokenIsTheOnlyUnused(rows: seq<PasswordResetToken>, nextId: int, userId: int, uuid: string, now: DateTime)
    ensures var r := IssuedTokens(rows, nextId, userId, uuid, now);
            var issued := r[|r| - 1];
            && issued.userId == userId && !issued.used && issued.token == uuid
            && (forall t :: t in r && t.userId == userId && !t.used ==> t == issued)
            && (forall later :: now <= later <= now + TokenLifetime ==> !IsExpired(issued, later))
            && (forall i :: 0 <= i < |rows| && rows[i].userId != userId ==> r[i] == rows[i])
  {
    var r := IssuedTokens(rows, nextId, userId, uuid, now);
    var inv := Invalidated(rows, userId);
    assert forall k :: 0 <= k < |inv| && inv[k].userId == userId ==> inv[k].used;
    assert forall k :: 0 <= k < |inv| ==> r[k] == inv[k];
  }

  /** `createPasswordResetTokenForUser`: an unknown e-mail fails before anything changes;
      otherwise the user's tokens are invalidated, a token with the given UUID is stored and
      the reset e-mail is handed to the sender. A duplicate UUID or a mail failure rolls the
      token table back. */
  method CreatePasswordResetTokenForUser(users: UserTable, tokens: TokenTable, outbox: NotificationLog,
                                         email: string, uuid: string, now: DateTime, frontendUrl: string,
                                         mailFailure: Option<string>)
    returns (r: Result<(), Exception>)
    requires users.Valid() && tokens.Valid()
    modifies tokens, outbox
    ensures tokens.Valid()
    ensures FindByEmail(users.rows, email).None? ==>
              r == Err(ResourceNotFoundException("Usuário não encontrado")) && outbox.sent == old(outbox.sent)
    ensures FindByEmail(users.rows, email).Some? && TokenInUse(old(tokens.rows), uuid) ==>
              r.Err? && r.error.DataIntegrityViolationException? && outbox.sent == old(outbox.sent)
    ensures FindByEmail(users.rows, email).Some? && !TokenInUse(old(tokens.rows), uuid) ==>
              outbox.sent == old(outbox.sent) + [ResetMail(FindByEmail(users.rows, email).value.email, frontendUrl, uuid)]
              && (mailFailure.Some? ==> r == Err(MailException(mailFailure.value)))
    ensures r.Ok? <==> FindByEmail(users.rows, email).Some? && !TokenInUse(old(tokens.rows), uuid) && mailFailure.None?
    ensures r.Ok? ==> tokens.rows == IssuedTokens(old(tokens.rows), old(tokens.nextId), FindByEmail(users.rows, email).value.id, uuid, now)
    ensures r.Err? ==> tokens.rows == old(tokens.rows)
  {
    var found := FindByEmail(users.rows, email);
    if found.None? {
      return Err(ResourceNotFoundException("Usuário não encontrado"));
    }
    var user := found.value;
    var before := tokens.rows;
    tokens.InvalidateExistingTokens(user.id);
    var saved := tokens.Insert(PasswordResetToken(0, uuid, user.id, now + TokenLifetime, false));
    if saved.Err? {
      tokens.rows := before;
      return Err(saved.error);
    }
    var sent := outbox.SendEmail(ResetMail(user.email, frontendUrl, uuid), mailFailure);
    if sent.Err? {
      tokens.rows := before;
      return Err(sent.error);
    }
    r := Ok(());
  }

  /** The three checks of `resetPassword`, in their order: the token exists, it is not expired,
      it is not used. */
  function CheckResetToken(rows: seq<PasswordResetToken>, token: string, now: DateTime): (r: Result<PasswordResetToken, Exception>)
    ensures FindByToken(rows, token).None? ==> r == Err(ResourceNotFoundException("Token inválido"))
    ensures FindByToken(rows, token).Some? && IsExpired(FindByToken(rows, token).value, now) ==>
              r == Err(IllegalStateException("Token expirado"))
    ensures r.Ok? <==> FindByToken(rows, token).Some? && !IsExpired(FindByToken(rows, token).value, now)
                       && !FindByToken(rows, token).value.used
    ensures r.Ok? ==> r.value == FindByToken(rows, token).value
  {
    match FindByToken(rows, token)
    case None => Err(ResourceNotFoundException("Token inválido"))
    case Some(t) =>
      if IsExpired(t, now) then Err(IllegalStateException("Token expirado"))
      else if t.used then Err(IllegalStateException("Token já foi utilizado"))
      else Ok(t)
  }

  /** A redeemed token cannot be redeemed again, at any later time: the invalidation that
      follows a reset marks it used. */
  lemma TokenRedeemedOnce(rows: seq<PasswordResetToken>, token: string, now: DateTime, later: DateTime)
    requires Pairwise(rows, PasswordResetTokenRepository.OrderedDistinct)
    requires CheckResetToken(rows, token, now).Ok?
    ensures CheckResetToken(Invalidated(rows, CheckResetToken(rows, token, now).value.userId), token, later).Err?
  {
    var t := CheckResetToken(rows, token, now).value;
    var r := Invalidated(rows, t.userId);
    var x := FindByToken(r, token).value;
    var i :| 0 <= i < |r| && r[i] == x;
    var k :| 0 <= k < |rows| && rows[k] == t;
    if i != k {
      if i < k { assert PasswordResetTokenRepository.OrderedDistinct(rows[i], rows[k]); }
      else { assert PasswordResetTokenRepository.OrderedDistinct(rows[k], rows[i]); }
    }
  }

  /** `resetPassword`. An unknown, expired or used token fails with the first failing check
      and changes nothing (the expired token's deletion is rolled back). Otherwise the owner's
      password becomes the encoding of the new one and all the owner's tokens become used. */
  method ResetPassword(users: UserTable, tokens: TokenTable, token: string, newPassword: string,
                       encode: string -> string, now: DateTime)
    returns (r: Result<(), Exception>)
    requires users.Valid() && tokens.Valid() && TokenOwnersExist(tokens.rows, users.rows)
    modifies users, tokens
    ensures users.Valid() && tokens.Valid()
    ensures CheckResetToken(old(tokens.rows), token, now).Err? ==>
              r == Err(CheckResetToken(old(tokens.rows), token, now).error)
    ensures r.Err? ==> users.rows == old(users.rows) && tokens.rows == old(tokens.rows)
    ensures r.Ok? ==>
              var t := CheckResetToken(old(tokens.rows), token, now).value;
              var owner := FindUserById(old(users.rows), t.userId).value;
              && CheckResetToken(old(tokens.rows), token, now).Ok?
              && users.rows == ReplaceUser(old(users.rows), owner.(password := encode(newPassword)))
              && tokens.rows == Invalidated(old(tokens.rows), t.userId)
    ensures CheckResetToken(old(tokens.rows), token, now).Ok? ==>
              var t := CheckResetToken(old(tokens.rows), token, now).value;
              var owner := FindUserById(old(users.rows), t.userId).value;
              r.Ok? <==> UserValid(owner.(password := encode(newPassword)))
  {
    var check := CheckResetToken(tokens.rows, token, now);
    if check.Err? {
      return Err(check.error);
    }
    var t := check.value;
    var owner := FindUserById(users.rows, t.userId).value;
    OwnEmailNotTaken(users.rows, owner);
    var saved := users.Update(owner.(password := encode(newPassword)));
    if saved.Err? {
      return Err(saved.error);
    }
    tokens.InvalidateExistingTokens(t.userId);
    r := Ok(());
  }
}
