/** The password-reset page of the web front end: the strength rule the new password must meet,
    the order of the form's checks, and the gate that shows no form without a token. */
module ResetPasswordPage {
  import opened Wrappers

  // ---------------------------------------------------------------------------------------
  // The strength rule: a regular expression anchored at both ends with four look-aheads
  // ---------------------------------------------------------------------------------------

  /** Characters a regular-expression `.` refuses: line feed, carriage return, line separator
      and paragraph separator. */
  predicate IsLineTerminator(c: char) {
    c == '\n' || c == '\r' || c == '\U{2028}' || c == '\U{2029}'
  }

  predicate IsLower(c: char) { 'a' <= c <= 'z' }
  predicate IsUpper(c: char) { 'A' <= c <= 'Z' }
  predicate IsDigit(c: char) { '0' <= c <= '9' }

  /** The bracket class of the fourth look-ahead, escapes resolved: `\-` is a hyphen, `\]` a
      closing bracket, `\\` a backslash, and the unescaped `[` is literal. */
  const SpecialCharacters: set<char> :=
    {'!', '@', '#', '$', '%', '^', '&', '*', '(', ')', '_', '+', '-', '=', '[', ']',
     '{', '}', ';', '\'', ':', '"', '\\', '|', ',', '.', '<', '>', '/', '?'}

  predicate IsSpecial(c: char) { c in SpecialCharacters }

  /** `(?=.*[class])` at the start of the input: some character of the class is reached by
      `.*`, so every character before it matches `.`. */
  predicate LookaheadFinds(s: string, cls: char -> bool) {
    exists j :: 0 <= j < |s| && cls(s[j]) && forall k :: 0 <= k < j ==> !IsLineTerminator(s[k])
  }

  /** `.{8,}$` from the start of the input: at least eight characters, each matching `.`, up to
      the end (no multiline flag, so `$` is the end of the input only). */
  predicate DotsToEnd(s: string) {
    |s| >= 8 && forall k :: 0 <= k < |s| ==> !IsLineTerminator(s[k])
  }

  /** The whole pattern, read operator by operator. */
  predicate RegexMatches(s: string) {
    && LookaheadFinds(s, IsLower)
    && LookaheadFinds(s, IsUpper)
    && LookaheadFinds(s, IsDigit)
    && LookaheadFinds(s, IsSpecial)
    && DotsToEnd(s)
  }

  predicate Contains(s: string, cls: char -> bool) {
    exists i :: 0 <= i < |s| && cls(s[i])
  }

  /** The policy the page's message announces, stated without the regular expression: eight
      characters or more, one lower-case and one upper-case ASCII letter, one ASCII digit, one
      listed special character, and no line break anywhere. */
  predicate MeetsPolicy(s: string) {
    && |s| >= 8
    && (forall k :: 0 <= k < |s| ==> !IsLineTerminator(s[k]))
    && Contains(s, IsLower)
    && Contains(s, IsUpper)
    && Contains(s, IsDigit)
    && Contains(s, IsSpecial)
  }

  /** Once no character is a line terminator, a look-ahead finds a class exactly when the
      string contains it. */
  lemma LookaheadIsContains(s: string, cls: char -> bool)
    requires forall k :: 0 <= k < |s| ==> !IsLineTerminator(s[k])
    ensures LookaheadFinds(s, cls) <==> Contains(s, cls)
  {
    if Contains(s, cls) {
      var i :| 0 <= i < |s| && cls(s[i]);
      assert forall k :: 0 <= k < i ==> !IsLineTerminator(s[k]);
    }
  }

  /** `validatePasswordStrength`: the regular expression accepts exactly the passwords that
      meet the announced policy. */
  function ValidatePasswordStrength(password: string): (ok: bool)
    ensures ok <==> MeetsPolicy(password)
  {
    var r := RegexMatches(password);
    assert r <==> MeetsPolicy(password) by {
      if DotsToEnd(password) {
        LookaheadIsContains(password, IsLower);
        LookaheadIsContains(password, IsUpper);
        LookaheadIsContains(password, IsDigit);
        LookaheadIsContains(password, IsSpecial);
      }
    }
    r
  }

  /** Fewer than eight characters are never enough, whatever they are. */
  lemma ShortPasswordRejected(password: string)
    requires |password| < 8
    ensures !ValidatePasswordStrength(password)
  {
  }

  /** A line break anywhere in the password makes it fail, even when every class is present. */
  lemma LineTerminatorRejected(password: string, i: int)
    requires 0 <= i < |password| && IsLineTerminator(password[i])
    ensures !ValidatePasswordStrength(password)
  {
  }

  /** Example: accented capitals and lower-case letters satisfy neither ASCII letter class, so a
      password whose only lower-case letters are `é` fails. */
  lemma AccentedPasswordFails()
    ensures !ValidatePasswordStrength("SENHÃ1!éé")
  {
    var weak := "SENHÃ1!éé";
    assert !Contains(weak, IsLower) by {
      forall i | 0 <= i < |weak|
        ensures !IsLower(weak[i])
      {
      }
    }
  }

  /** Example: the same password with one ASCII `a` in place of `Ã` meets every class. */
  lemma AsciiLetterPasswordPasses()
    ensures ValidatePasswordStrength("SENHa1!éé")
  {
    var strong := "SENHa1!éé";
    assert forall k :: 0 <= k < |strong| ==> !IsLineTerminator(strong[k]);
    assert Contains(strong, IsLower) by { assert IsLower(strong[4]); }
    assert Contains(strong, IsUpper) by { assert IsUpper(strong[0]); }
    assert Contains(strong, IsDigit) by { assert IsDigit(strong[5]); }
    assert Contains(strong, IsSpecial) by { assert strong[6] == '!'; }
  }

  /** Symbols outside the listed class (a space, a tilde, a backquote) do not stand in for a
      special character: a password made only of letters, digits and those symbols fails. */
  lemma UnlistedSymbolsDoNotCount(password: string)
    requires forall i :: 0 <= i < |password| ==>
               IsLower(password[i]) || IsUpper(password[i]) || IsDigit(password[i]) || password[i] in " ~`"
    ensures !ValidatePasswordStrength(password)
  {
    assert !Contains(password, IsSpecial) by {
      forall i | 0 <= i < |password|
        ensures !IsSpecial(password[i])
      {
        var c := password[i];
        assert IsLower(c) || IsUpper(c) || IsDigit(c) || c == ' ' || c == '~' || c == '`';
      }
    }
  }

  // ---------------------------------------------------------------------------------------
  // The form
  // ---------------------------------------------------------------------------------------

  const FillAllFields: string := "Preencha todos os campos."
  const PasswordsDiffer: string := "As senhas não coincidem."
  const WeakPassword: string :=
    "A senha deve ter pelo menos 8 caracteres, incluindo maiúscula, minúscula, número e caractere especial."
  const ResetDone: string := "Senha redefinida com sucesso! Redirecionando para login..."
  const InvalidToken: string := "Token inválido ou expirado."

  /** The first check of `handleSubmit` that fails, if any: an empty field, then differing
      passwords, then a weak password. */
  function FirstProblem(newPassword: string, confirmPassword: string): (problem: Option<string>)
    ensures problem.None? <==>
              |newPassword| > 0 && newPassword == confirmPassword && MeetsPolicy(newPassword)
    ensures |newPassword| == 0 || |confirmPassword| == 0 ==> problem == Some(FillAllFields)
  {
    if |newPassword| == 0 || |confirmPassword| == 0 then Some(FillAllFields)
    else if newPassword != confirmPassword then Some(PasswordsDiffer)
    else if !ValidatePasswordStrength(newPassword) then Some(WeakPassword)
    else None
  }

  /** The checks run in order: a mismatch is reported before strength is looked at, and a
      weak password is reported only when both fields are filled and equal. */
  lemma ChecksRunInOrder(newPassword: string, confirmPassword: string)
    ensures |newPassword| > 0 && |confirmPassword| > 0 && newPassword != confirmPassword ==>
              FirstProblem(newPassword, confirmPassword) == Some(PasswordsDiffer)
    ensures FirstProblem(newPassword, confirmPassword) == Some(WeakPassword) <==>
              |newPassword| > 0 && newPassword == confirmPassword && !MeetsPolicy(newPassword)
  {
  }

  /** How the reset request to the back end ended: resolved, or rejected with the message of
      the response body (when there is one) and the error's own message. */
  datatype ResetOutcome = Resolved | Rejected(responseMessage: Option<string>, message: string)

  /** `err.response?.data?.message || err.message`: an absent or empty response message falls
      back to the error's own. */
  function RejectionText(responseMessage: Option<string>, message: string): (text: string)
    ensures responseMessage.Some? && |responseMessage.value| > 0 ==> text == responseMessage.value
    ensures responseMessage.None? || |responseMessage.value| == 0 ==> text == message
  {
    if responseMessage.Some? && |responseMessage.value| > 0 then responseMessage.value else message
  }

  /** What the page renders. */
  datatype View =
    | NoTokenView(message: string)
    | FormView(success: Option<string>, error: Option<string>, submitDisabled: bool, submitLabel: string)

  /** A query parameter that is missing or empty is falsy, so it counts as no token. */
  predicate HasToken(token: Option<string>) {
    token.Some? && |token.value| > 0
  }

  /** The page's state: the two inputs, the loading flag, the two messages, whether the timed
      move to the login page was scheduled, and the reset requests handed to the API client,
      each a pair of token and new password. */
  class Page {
    const token: Option<string>
    var newPassword: string
    var confirmPassword: string
    var loading: bool
    var error: string
    var success: string
    var redirectScheduled: bool
    var resetRequests: seq<(Option<string>, string)>

    constructor (token: Option<string>)
      ensures this.token == token
      ensures newPassword == "" && confirmPassword == "" && !loading
      ensures error == "" && success == "" && !redirectScheduled && resetRequests == []
    {
      this.token := token;
      newPassword := "";
      confirmPassword := "";
      loading := false;
      error := "";
      success := "";
      redirectScheduled := false;
      resetRequests := [];
    }

    /** The rendered page: without a token only the invalid-token message; otherwise the form,
        each message shown when it is not empty and the button disabled while loading. */
    function Render(): (v: View)
      reads this
      ensures v.NoTokenView? <==> !HasToken(token)
      ensures v.NoTokenView? ==> v.message == InvalidToken
      ensures v.FormView? ==> (v.error.Some? <==> |error| > 0) && (v.success.Some? <==> |success| > 0)
                              && (v.submitDisabled <==> loading)
    {
      if !HasToken(token) then NoTokenView(InvalidToken)
      else
        FormView(if |success| > 0 then Some(success) else None,
                 if |error| > 0 then Some(error) else None,
                 loading,
                 if loading then "Redefinindo..." else "Redefinir")
    }

    /** The first input's change handler. */
    method TypeNewPassword(value: string)
      modifies this
      ensures newPassword == value
      ensures confirmPassword == old(confirmPassword) && loading == old(loading)
      ensures error == old(error) && success == old(success)
      ensures redirectScheduled == old(redirectScheduled) && resetRequests == old(resetRequests)
    {
      newPassword := value;
    }

    /** The second input's change handler. */
    method TypeConfirmPassword(value: string)
      modifies this
      ensures confirmPassword == value
      ensures newPassword == old(newPassword) && loading == old(loading)
      ensures error == old(error) && success == old(success)
      ensures redirectScheduled == old(redirectScheduled) && resetRequests == old(resetRequests)
    {
      confirmPassword := value;
    }

    /** `handleSubmit`: both messages are cleared; the first failing check sets the error and
        nothing is sent; otherwise exactly one reset request carries the token and the new
        password, and its outcome sets the success message (and schedules the move to the
        login page) or the error. Loading is off again afterwards. */
    method HandleSubmit(outcome: ResetOutcome)
      modifies this
      ensures newPassword == old(newPassword) && confirmPassword == old(confirmPassword)
      ensures FirstProblem(newPassword, confirmPassword).Some? ==>
                && error == FirstProblem(newPassword, confirmPassword).value && success == ""
                && resetRequests == old(resetRequests) && loading == old(loading)
                && redirectScheduled == old(redirectScheduled)
      ensures FirstProblem(newPassword, confirmPassword).None? ==>
                && resetRequests == old(resetRequests) + [(token, newPassword)]
                && !loading
                && (outcome.Resolved? ==> success == ResetDone && error == "" && redirectScheduled)
                && (outcome.Rejected? ==>
                      && error == RejectionText(outcome.responseMessage, outcome.message) && success == ""
                      && redirectScheduled == old(redirectScheduled))
    {
      error := "";
      success := "";
      if |newPassword| == 0 || |confirmPassword| == 0 {
        error := FillAllFields;
        return;
      }
      if newPassword != confirmPassword {
        error := PasswordsDiffer;
        return;
      }
      if !ValidatePasswordStrength(newPassword) {
        error := WeakPassword;
        return;
      }
      loading := true;
      resetRequests := resetRequests + [(token, newPassword)];
      if outcome.Resolved? {
        success := ResetDone;
        redirectScheduled := true;
      } else {
        error := RejectionText(outcome.responseMessage, outcome.message);
      }
      loading := false;
    }

    /** Submitting the rendered page: only the form can be submitted, so without a token
        nothing happens at all. Both inputs are `required`, so the browser's constraint
        validation also blocks the submit while either field is empty. Otherwise
        `handleSubmit` runs, and with both fields filled its first check never fails. */
    method Submit(outcome: ResetOutcome)
      modifies this
      ensures !HasToken(token) || |old(newPassword)| == 0 || |old(confirmPassword)| == 0 ==>
                && newPassword == old(newPassword) && confirmPassword == old(confirmPassword)
                && loading == old(loading) && error == old(error) && success == old(success)
                && redirectScheduled == old(redirectScheduled) && resetRequests == old(resetRequests)
      ensures HasToken(token) && |newPassword| > 0 && |confirmPassword| > 0 ==>
                && newPassword == old(newPassword) && confirmPassword == old(confirmPassword)
                && (newPassword != confirmPassword ==>
                      && error == PasswordsDiffer && success == ""
                      && resetRequests == old(resetRequests) && loading == old(loading)
                      && redirectScheduled == old(redirectScheduled))
                && (newPassword == confirmPassword && !MeetsPolicy(newPassword) ==>
                      && error == WeakPassword && success == ""
                      && resetRequests == old(resetRequests) && loading == old(loading)
                      && redirectScheduled == old(redirectScheduled))
                && (newPassword == confirmPassword && MeetsPolicy(newPassword) ==>
                      && resetRequests == old(resetRequests) + [(token, newPassword)]
                      && !loading
                      && (outcome.Resolved? ==> success == ResetDone && error == "" && redirectScheduled)
                      && (outcome.Rejected? ==>
                            && error == RejectionText(outcome.responseMessage, outcome.message) && success == ""
                            && redirectScheduled == old(redirectScheduled)))
      ensures |resetRequests| > |old(resetRequests)| ==>
                HasToken(token) && MeetsPolicy(newPassword) && newPassword == confirmPassword
                && resetRequests == old(resetRequests) + [(token, newPassword)]
    {
      if Render().NoTokenView? || |newPassword| == 0 || |confirmPassword| == 0 {
        return;
      }
      HandleSubmit(outcome);
    }
  }
}
