/**
 * screens/Onboarding/NewPassword.tsx: the password-match flag kept while
 * the two fields are edited, the validation gate on submission, and what
 * the screen does with the reset-password reply.
 */
module NewPassword {
  import opened Wrappers
  import opened SecureStore
  import opened UserSlice
  import UserTypes

  datatype Field = Password | ConfirmPassword

  /** The form values. */
  datatype Values = Values(password: string, confirmPassword: string)

  function Get(v: Values, field: Field): string
  {
    if field == Password then v.password else v.confirmPassword
  }

  /** `{ ...values, [field]: text }` */
  function SetField(v: Values, field: Field, text: string): (r: Values)
    ensures Get(r, field) == text
    ensures forall f :: f != field ==> Get(r, f) == Get(v, f)
  {
    if field == Password then v.(password := text) else v.(confirmPassword := text)
  }

  /**
   * The new match flag after typing `text` into `field`, compared against
   * the values as they were before the edit.
   */
  function MatchAfterEdit(v: Values, field: Field, text: string, isPasswordMatch: bool): bool
  {
    if field == Password && |v.confirmPassword| > 0 then v.confirmPassword == text
    else if field == ConfirmPassword then v.password == text
    else isPasswordMatch
  }

  /** The schema: each field is required and at least 8 characters long. */
  function ValidationErrors(v: Values): (r: set<Field>)
    ensures forall f :: f in r <==> |Get(v, f)| < 8
  {
    (if |v.password| < 8 then {Password} else {}) + (if |v.confirmPassword| < 8 then {ConfirmPassword} else {})
  }

  /** `sub` occurs in `s` starting at position `i`. */
  predicate OccursAt(s: string, sub: string, i: int)
  {
    0 <= i && i + |sub| <= |s| && s[i..i + |sub|] == sub
  }

  /** `s.includes(sub)` */
  function Contains(s: string, sub: string): (r: bool)
    ensures r <==> exists i :: OccursAt(s, sub, i)
    decreases |s|
  {
    if |s| < |sub| then false
    else if s[..|sub|] == sub then assert OccursAt(s, sub, 0); true
    else
      var t := s[1..];
      var r := Contains(t, sub);
      if r then
        ghost var i :| OccursAt(t, sub, i);
        assert OccursAt(s, sub, i + 1) by {
          assert s[i + 1..i + 1 + |sub|] == s[1..][i..i + |sub|];
        }
        r
      else
        assert forall i :: OccursAt(s, sub, i) ==> i >= 1 && OccursAt(t, sub, i - 1) by {
          forall i | OccursAt(s, sub, i) ensures i >= 1 && OccursAt(t, sub, i - 1) {
            if i == 0 {
              assert false;
            } else {
              ShiftSlice(s, i, |sub|);
            }
          }
        }
        r
  }

  lemma ShiftSlice(s: string, i: int, n: nat)
    requires 1 <= i && i + n <= |s|
    ensures s[i..i + n] == s[1..][i - 1..i - 1 + n]
  {
    var a, t := s[i..i + n], s[1..];
    var b := t[i - 1..i - 1 + n];
    forall k | 0 <= k < n ensures a[k] == b[k] {
      assert a[k] == s[i + k];
      assert b[k] == t[i - 1 + k] == s[i + k];
    }
  }

  /** A text without the digit 4 never contains "400". */
  lemma {:induction false} NoFourNoMatch(s: string)
    requires '4' !in s
    ensures !Contains(s, "400")
    decreases |s|
  {
    if |s| >= 3 {
      assert s[..3][0] == s[0];
      assert forall c :: c in s[1..] ==> c in s;
      NoFourNoMatch(s[1..]);
    }
  }

  /** What formSubmitted shows for a failed reply; `Crashed` where reading `errors[0].msg` throws. */
  datatype Shown = Message(text: Option<string>) | Crashed

  /**
   * The error mapping: a first message mentioning "400" is replaced by a
   * generic one, any other is shown as it is; without an error object the
   * optional chain yields undefined; an error with no messages throws.
   */
  function ErrorMessageFor(errorMessages: Option<seq<string>>): Shown
  {
    if errorMessages.None? then Message(None)
    else if |errorMessages.value| == 0 then Crashed
    else if Contains(errorMessages.value[0], "400") then Message(Some("Invalid email or password"))
    else Message(Some(errorMessages.value[0]))
  }

  lemma ErrorMapping(msgs: seq<string>)
    requires |msgs| > 0
    ensures Contains(msgs[0], "400") ==> ErrorMessageFor(Some(msgs)) == Message(Some("Invalid email or password"))
    ensures !Contains(msgs[0], "400") ==> ErrorMessageFor(Some(msgs)) == Message(Some(msgs[0]))
    ensures ErrorMessageFor(None) == Message(None)
  {
  }

  /** A server message such as "Request failed with status 400" is masked; "Expired code" is shown verbatim. */
  lemma ErrorMappingExamples()
    ensures ErrorMessageFor(Some(["Request failed 400"])) == Message(Some("Invalid email or password"))
    ensures ErrorMessageFor(Some(["Expired code"])) == Message(Some("Expired code"))
  {
    assert OccursAt("Request failed 400", "400", 15);
    NoFourNoMatch("Expired code");
  }

  /** The successful reply: tokens, the server's expiration string and the user. */
  datatype ResetReply = ResetReply(accessToken: string, expirationDate: string, refreshToken: string,
                                   user: UserTypes.User)

  class NewPasswordForm {
    var values: Values
    var isPasswordMatch: bool
    var errorMessage: Option<string>

    constructor ()
      ensures values == Values("", "") && isPasswordMatch && errorMessage == Some("")
    {
      values := Values("", "");
      isPasswordMatch := true;
      errorMessage := Some("");
    }

    /** handleConfirmPassword: write the field, then update the flag from the values before the edit. */
    method HandleConfirmPassword(field: Field, text: string)
      modifies this
      ensures values == SetField(old(values), field, text)
      ensures isPasswordMatch == MatchAfterEdit(old(values), field, text, old(isPasswordMatch))
      ensures errorMessage == old(errorMessage)
    {
      var before := values;
      values := SetField(values, field, text);
      if field == Password && |before.confirmPassword| > 0 {
        isPasswordMatch := before.confirmPassword == text;
      } else if field == ConfirmPassword {
        isPasswordMatch := before.password == text;
      }
    }

    /** handleFormSubmit's gate: the reset request goes out only when the schema reports no error. */
    function MaySubmit(): (r: bool)
      reads this
      ensures r <==> |values.password| >= 8 && |values.confirmPassword| >= 8
    {
      |ValidationErrors(values)| == 0
    }

    /**
     * formSubmitted: on an error (or no data) show the mapped message and
     * report failure; on success authenticate with the reply's tokens, the
     * user's id and the localized expiration ("" when the device reports no
     * time zone, which storeTokens then does not store), then set the user.
     */
    method FormSubmitted(session: UserState, errorMessages: Option<seq<string>>, data: Option<ResetReply>,
                         userTimezone: Option<string>, convertUTCTime: (string, string) -> string)
      returns (shown: Shown, isSuccessful: bool)
      modifies this, session
      ensures errorMessages.Some? || data.None? ==>
                !isSuccessful && shown == ErrorMessageFor(errorMessages)
                && session.State() == old(session.State())
                && (shown.Message? ==> errorMessage == shown.text)
      ensures errorMessages.None? && data.Some? ==>
                isSuccessful && errorMessage == old(errorMessage)
                && var d := data.value;
                   var localized := if userTimezone.Some? then convertUTCTime(d.expirationDate, userTimezone.value) else "";
                   session.State() == SetUserSpec(AuthenticateSpec(old(session.State()),
                     AuthenticatePayload(d.accessToken, d.refreshToken, Some(d.user.id), Some(localized))), d.user)
      ensures values == old(values) && isPasswordMatch == old(isPasswordMatch)
    {
      if errorMessages.Some? || data.None? {
        shown := ErrorMessageFor(errorMessages);
        if shown.Message? {
          errorMessage := shown.text;
        }
        return shown, false;
      }
      var d := data.value;
      var localized := "";
      if userTimezone.Some? {
        localized := convertUTCTime(d.expirationDate, userTimezone.value);
      }
      session.Authenticate(AuthenticatePayload(d.accessToken, d.refreshToken, Some(d.user.id), Some(localized)));
      session.SetUser(d.user);
      return Message(None), true;
    }
  }

  /** The match flag starts true; the submission gate does not look at it. */
  lemma GateIgnoresMatchFlag(v: Values)
    ensures |ValidationErrors(v)| == 0 <==> |v.password| >= 8 && |v.confirmPassword| >= 8
    ensures |ValidationErrors(Values("password1", "password2"))| == 0
  {
    if |ValidationErrors(v)| == 0 {
      assert Password !in ValidationErrors(v);
      assert ConfirmPassword !in ValidationErrors(v);
    }
  }

  /** Editing the password against an empty confirmation leaves the flag; otherwise it is the comparison with the other field. */
  lemma MatchFlagCases(v: Values, text: string, flag: bool)
    ensures v.confirmPassword == "" ==> MatchAfterEdit(v, Password, text, flag) == flag
    ensures v.confirmPassword != "" ==> MatchAfterEdit(v, Password, text, flag) == (v.confirmPassword == text)
    ensures MatchAfterEdit(v, ConfirmPassword, text, flag) == (v.password == text)
  {
  }

  /**
   * The flag compares with the OTHER field's old value, so after typing the
   * same text into both fields, in either order, it holds.
   */
  lemma EqualFieldsMatch(v: Values, text: string, flag: bool)
    requires text != ""
    ensures var v1 := SetField(v, Password, text);
            MatchAfterEdit(v1, ConfirmPassword, text, MatchAfterEdit(v, Password, text, flag))
    ensures var v1 := SetField(v, ConfirmPassword, text);
            MatchAfterEdit(v1, Password, text, MatchAfterEdit(v, ConfirmPassword, text, flag))
  {
  }
}
