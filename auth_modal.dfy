/** The sign-in dialog (src/components/AuthModal.jsx): three modes, login,
    forgot-password and signup, each with its own form, and the buttons that
    move between them carrying or clearing fields as they go. */
module AuthModal {
  import opened Wrappers

  const LoginMode := "login"
  const ForgotMode := "forgot"
  const SignupMode := "signup"

  /** The options of the belt-rank select, in order. */
  const BeltRanks: seq<string> := ["white", "blue", "purple", "brown", "black"]

  /** What the dialog shows. */
  datatype Screen =
    | LoginForm
    | ForgotForm
    | ForgotSent(email: string) // the confirmation for this address
    | SignupForm

  /** The screen for a mode: `login` and `forgot` have their own, and any
      other value, `signup` included, shows the signup form. An absent dialog
      shows nothing. */
  function ScreenFor(isOpen: bool, mode: string, forgotSent: bool, forgotEmail: string): (s: Option<Screen>)
    ensures !isOpen <==> s == None
    ensures s == Some(LoginForm) <==> isOpen && mode == LoginMode
    ensures s == Some(ForgotForm) <==> isOpen && mode == ForgotMode && !forgotSent
    ensures s == Some(ForgotSent(forgotEmail)) <==> isOpen && mode == ForgotMode && forgotSent
    ensures s == Some(SignupForm) <==> isOpen && mode != LoginMode && mode != ForgotMode
  {
    if !isOpen then None
    else if mode == LoginMode then Some(LoginForm)
    else if mode == ForgotMode then Some(if forgotSent then ForgotSent(forgotEmail) else ForgotForm)
    else Some(SignupForm)
  }

  /** An input of the dialog and the value typed or picked into it. */
  datatype Input =
    | Email(email: string)
    | Password(password: string)
    | Username(username: string)
    | BeltRank(belt: string)
    | Academy(academy: string)
    | RememberMe(checked: bool)
    | ForgotEmail(forgotEmail: string)

  /** The dialog's state. */
  class Dialog {
    var mode: string
    var email: string
    var password: string
    var username: string
    var beltRank: string
    var academy: string
    var rememberMe: bool
    var forgotEmail: string
    var forgotSent: bool

    /** The belt rank is one the select offers. */
    predicate Valid()
      reads this
    {
      beltRank in BeltRanks
    }

    /** The initial state for the `initialMode` prop, `login` when it is not
        given. */
    constructor (initialMode: Option<string>)
      ensures mode == (if initialMode.Some? then initialMode.value else LoginMode)
      ensures email == "" && password == "" && username == "" && academy == "" && forgotEmail == ""
      ensures beltRank == "white" && !rememberMe && !forgotSent
      ensures Valid()
    {
      mode := if initialMode.Some? then initialMode.value else LoginMode;
      email, password, username, academy, forgotEmail := "", "", "", "", "";
      beltRank := "white";
      rememberMe := false;
      forgotSent := false;
    }

    /** Typing into a field, ticking the checkbox, or picking a belt rank
        from the select (which offers only `BeltRanks`). */
    method Edit(input: Input)
      requires input.BeltRank? ==> input.belt in BeltRanks
      modifies this
      ensures mode == old(mode) && forgotSent == old(forgotSent)
      ensures email == (if input.Email? then input.email else old(email))
      ensures password == (if input.Password? then input.password else old(password))
      ensures username == (if input.Username? then input.username else old(username))
      ensures beltRank == (if input.BeltRank? then input.belt else old(beltRank))
      ensures academy == (if input.Academy? then input.academy else old(academy))
      ensures rememberMe == (if input.RememberMe? then input.checked else old(rememberMe))
      ensures forgotEmail == (if input.ForgotEmail? then input.forgotEmail else old(forgotEmail))
      ensures old(Valid()) ==> Valid()
    {
      match input {
        case Email(v) => email := v;
        case Password(v) => password := v;
        case Username(v) => username := v;
        case BeltRank(v) => beltRank := v;
        case Academy(v) => academy := v;
        case RememberMe(v) => rememberMe := v;
        case ForgotEmail(v) => forgotEmail := v;
      }
    }

    /** "Forgot password?" on the login form: the forgot form opens with the
        login email filled in and no confirmation showing. */
    method OpenForgot()
      modifies this
      ensures mode == ForgotMode && forgotEmail == old(email) && !forgotSent
      ensures email == old(email) && password == old(password) && username == old(username)
      ensures beltRank == old(beltRank) && academy == old(academy) && rememberMe == old(rememberMe)
      ensures old(Valid()) ==> Valid()
    {
      mode := ForgotMode;
      forgotEmail := email;
      forgotSent := false;
    }

    /** "Sign up" on the login form: email, password and username start
        empty. */
    method OpenSignup()
      modifies this
      ensures mode == SignupMode && email == "" && password == "" && username == ""
      ensures beltRank == old(beltRank) && academy == old(academy) && rememberMe == old(rememberMe)
      ensures forgotEmail == old(forgotEmail) && forgotSent == old(forgotSent)
      ensures old(Valid()) ==> Valid()
    {
      mode := SignupMode;
      email := "";
      password := "";
      username := "";
    }

    /** "Login" on the signup form: email and password are cleared, the
        username and the other signup fields are kept. */
    method SignupToLogin()
      modifies this
      ensures mode == LoginMode && email == "" && password == ""
      ensures username == old(username) && beltRank == old(beltRank) && academy == old(academy)
      ensures rememberMe == old(rememberMe) && forgotEmail == old(forgotEmail) && forgotSent == old(forgotSent)
      ensures old(Valid()) ==> Valid()
    {
      mode := LoginMode;
      email := "";
      password := "";
    }

    /** Either "Back to Login" button of the forgot screen: only the mode
        changes. */
    method BackToLogin()
      modifies this
      ensures mode == LoginMode
      ensures email == old(email) && password == old(password) && username == old(username)
      ensures beltRank == old(beltRank) && academy == old(academy) && rememberMe == old(rememberMe)
      ensures forgotEmail == old(forgotEmail) && forgotSent == old(forgotSent)
      ensures old(Valid()) ==> Valid()
    {
      mode := LoginMode;
    }

    /** `handleLogin`: the email, password and remember-me flag are sent;
        `outcome` is how the call ended. The dialog asks to be closed only
        after a success, and its own state does not change. */
    method HandleLogin(outcome: Outcome<()>) returns (request: (string, string, bool), close: bool)
      ensures request == (email, password, rememberMe)
      ensures close <==> outcome.Success?
    {
      request := (email, password, rememberMe);
      close := outcome.Success?;
    }

    /** `handleSignup`: username, email, password, belt rank and academy are
        sent; the dialog asks to be closed only after a success. */
    method HandleSignup(outcome: Outcome<()>) returns (request: (string, string, string, string, string), close: bool)
      ensures request == (username, email, password, beltRank, academy)
      ensures close <==> outcome.Success?
      ensures Valid() ==> request.3 in BeltRanks
    {
      request := (username, email, password, beltRank, academy);
      close := outcome.Success?;
    }

    /** `handleForgotPassword`: the forgot email is sent; the confirmation
        shows only after a success, and nothing else changes. */
    method HandleForgot(outcome: Outcome<()>) returns (request: string)
      modifies this
      ensures request == old(forgotEmail)
      ensures forgotSent == (outcome.Success? || old(forgotSent))
      ensures mode == old(mode) && email == old(email) && password == old(password) && username == old(username)
      ensures beltRank == old(beltRank) && academy == old(academy) && rememberMe == old(rememberMe)
      ensures forgotEmail == old(forgotEmail)
      ensures old(Valid()) ==> Valid()
    {
      request := forgotEmail;
      if outcome.Success? {
        forgotSent := true;
      }
    }

    /** What is rendered while the dialog is open or closed. */
    function Screen(isOpen: bool): (s: Option<Screen>)
      reads this
    {
      ScreenFor(isOpen, mode, forgotSent, forgotEmail)
    }
  }
}
