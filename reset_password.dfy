/** The password-reset page (src/components/ResetPassword.jsx): the token
    read from the link, the two password fields, and the checks a submission
    passes before the reset request is made. */
module ResetPassword {
  import opened Wrappers
  import opened JsText

  /** A new password must be at least this many UTF-16 code units long. */
  const MinPasswordLength: nat := 8

  /** Why a submission is refused, in the order the checks run. */
  datatype Rejection = MissingToken | Mismatch | TooShort

  /** The text of the alert shown for a refusal. */
  function AlertText(r: Rejection): string
  {
    match r
    case MissingToken => "Invalid or missing reset token"
    case Mismatch => "Passwords do not match"
    case TooShort => "Password must be at least 8 characters"
  }

  /** The first check a submission fails, or none: a missing token is
      reported whatever the passwords are, a mismatch whatever their length,
      and a short password only when the two agree. */
  function Validate(token: string, newPassword: string, confirmPassword: string): (r: Option<Rejection>)
    ensures r == None <==> token != "" && newPassword == confirmPassword && Utf16Length(newPassword) >= MinPasswordLength
    ensures r == Some(MissingToken) <==> token == ""
    ensures r == Some(Mismatch) <==> token != "" && newPassword != confirmPassword
    ensures r == Some(TooShort) <==> token != "" && newPassword == confirmPassword && Utf16Length(newPassword) < MinPasswordLength
  {
    if token == "" then Some(MissingToken)
    else if newPassword != confirmPassword then Some(Mismatch)
    else if Utf16Length(newPassword) < MinPasswordLength then Some(TooShort)
    else None
  }

  /** The length check counts code units, as `length` does: four characters
      outside the Basic Multilingual Plane make a long enough password,
      seven ASCII characters do not. */
  lemma LengthCountsCodeUnits()
    ensures Validate("t", "\U{1F94B}\U{1F94B}\U{1F94B}\U{1F94B}", "\U{1F94B}\U{1F94B}\U{1F94B}\U{1F94B}") == None
    ensures Validate("t", "1234567", "1234567") == Some(TooShort)
  {
    var p := "\U{1F94B}\U{1F94B}\U{1F94B}\U{1F94B}";
    assert p[1..][1..][1..][1..] == "";
    assert Utf16Length(p) == 8;
    var q := "1234567";
    assert q[1..][1..][1..][1..][1..][1..][1..] == "";
    assert Utf16Length(q) == 7;
  }

  /** What the page shows. */
  datatype Screen =
    | Validating                                  // "Loading..."
    | InvalidLink                                 // the link has no token
    | ResetDone                                   // the success message
    | ResetForm(busy: bool, error: Option<string>) // the form; `busy` disables it

  /** The screen, by priority: the token check still pending, then a missing
      token, then a finished reset, then the form with the authentication
      context's `loading` and `error`. */
  function ScreenFor(validating: bool, token: string, success: bool, loading: bool, error: Option<string>): (s: Screen)
    ensures validating <==> s == Validating
    ensures s == InvalidLink <==> !validating && token == ""
    ensures s == ResetDone <==> !validating && token != "" && success
    ensures s.ResetForm? <==> !validating && token != "" && !success
    ensures s.ResetForm? ==> s.busy == loading && s.error == error
  {
    if validating then Validating
    else if token == "" then InvalidLink
    else if success then ResetDone
    else ResetForm(loading, error)
  }

  /** The page's state. */
  class ResetPage {
    var token: string
    var newPassword: string
    var confirmPassword: string
    var success: bool
    var validating: bool

    /** Empty fields, no success yet, the token check pending. */
    constructor ()
      ensures token == "" && newPassword == "" && confirmPassword == ""
      ensures !success && validating
    {
      token := "";
      newPassword := "";
      confirmPassword := "";
      success := false;
      validating := true;
    }

    /** The mount effect, given the `token` query parameter of the page's
        address (`None` when absent): a non-empty value becomes the token;
        the check is over either way. */
    method ReadToken(tokenParam: Option<string>)
      modifies this
      ensures tokenParam.Some? && tokenParam.value != "" ==> token == tokenParam.value
      ensures !(tokenParam.Some? && tokenParam.value != "") ==> token == old(token)
      ensures !validating
      ensures newPassword == old(newPassword) && confirmPassword == old(confirmPassword) && success == old(success)
    {
      if tokenParam.Some? && tokenParam.value != "" {
        token := tokenParam.value;
      }
      validating := false;
    }

    /** Typing into the new-password field. */
    method EditNewPassword(value: string)
      modifies this
      ensures newPassword == value
      ensures token == old(token) && confirmPassword == old(confirmPassword)
      ensures success == old(success) && validating == old(validating)
    {
      newPassword := value;
    }

    /** Typing into the confirmation field. */
    method EditConfirmPassword(value: string)
      modifies this
      ensures confirmPassword == value
      ensures token == old(token) && newPassword == old(newPassword)
      ensures success == old(success) && validating == old(validating)
    {
      confirmPassword := value;
    }

    /** `handleReset`. A refused submission raises the alert of the first
        failed check and makes no request. Otherwise the token and the new
        password are sent, and `outcome` is how the call ended: a success
        marks the reset done and clears both password fields, a failure
        changes nothing. */
    method HandleReset(outcome: Outcome<()>) returns (alert: Option<string>, request: Option<(string, string)>)
      modifies this
      ensures old(Validate(token, newPassword, confirmPassword)).Some? ==>
        alert == Some(AlertText(old(Validate(token, newPassword, confirmPassword)).value)) && request == None
      ensures old(Validate(token, newPassword, confirmPassword)).None? ==>
        alert == None && request == Some((old(token), old(newPassword)))
      ensures request.Some? && outcome.Success? ==> success && newPassword == "" && confirmPassword == ""
      ensures !(request.Some? && outcome.Success?) ==>
        success == old(success) && newPassword == old(newPassword) && confirmPassword == old(confirmPassword)
      ensures token == old(token) && validating == old(validating)
    {
      var refused := Validate(token, newPassword, confirmPassword);
      if refused.Some? {
        return Some(AlertText(refused.value)), None;
      }
      alert, request := None, Some((token, newPassword));
      if outcome.Success? {
        success := true;
        newPassword := "";
        confirmPassword := "";
      }
    }
  }
}
