/** The sign-in / sign-up form: the sign-up checks, the display name a
    signed-in user gets, and the form state its two handlers change. The
    authentication service is reduced to the outcome it reports, and the
    calls made to it are recorded in order. */
module Login {
  import opened Wrappers
  import opened Text
  import opened Splice

  const NameMissingMessage: string := "Please enter your full name."
  const PasswordShortMessage: string := "Password must be at least 6 characters."
  const PasswordMismatchMessage: string := "Passwords do not match."

  /** The shortest password sign-up accepts, in UTF-16 code units. */
  const MinPasswordLength: nat := 6

  /** The message of the first sign-up check that fails, in the order the
      form runs them: a name, a long enough password, a matching
      confirmation. */
  function SignupError(name: string, password: string, confirm: string): (r: Option<string>)
    ensures r.None? <==> name != "" && Utf16Length(password) >= MinPasswordLength && password == confirm
    ensures r.Some? ==> r.value in {NameMissingMessage, PasswordShortMessage, PasswordMismatchMessage}
  {
    if name == "" then Some(NameMissingMessage)
    else if Utf16Length(password) < MinPasswordLength then Some(PasswordShortMessage)
    else if password != confirm then Some(PasswordMismatchMessage)
    else None
  }

  /** Each message is reported exactly when its own check fails and every
      check before it passes: an empty name hides a short password, and a
      short password hides a mismatch. */
  lemma SignupChecksInOrder(name: string, password: string, confirm: string)
    ensures SignupError(name, password, confirm) == Some(NameMissingMessage) <==> name == ""
    ensures SignupError(name, password, confirm) == Some(PasswordShortMessage) <==>
              name != "" && Utf16Length(password) < MinPasswordLength
    ensures SignupError(name, password, confirm) == Some(PasswordMismatchMessage) <==>
              name != "" && Utf16Length(password) >= MinPasswordLength && password != confirm
  {
  }

  /** A five-character password is refused and a six-character one is
      not, whatever else the form holds. */
  lemma PasswordLengthBoundary(name: string)
    requires name != ""
    ensures SignupError(name, "abcde", "abcde") == Some(PasswordShortMessage)
    ensures SignupError(name, "abcdef", "abcdef") == None
  {
    Utf16LengthOfBmp("abcde");
    Utf16LengthOfBmp("abcdef");
  }

  /** `full_name || email.split('@')[0]`: the name stored with the account
      when it is a non-empty string, otherwise the part of the email before
      its first `@`. */
  function SignInName(fullName: Option<string>, email: string): (r: string)
    ensures fullName.Some? && fullName.value != "" ==> r == fullName.value
    ensures (fullName.None? || fullName.value == "") ==>
              r <= email && '@' !in r && (|r| < |email| ==> email[|r|] == '@')
  {
    if fullName.Some? && fullName.value != "" then fullName.value else BeforeFirst(email, '@')
  }

  /** The fallback is the first piece of splitting the email on `@`, and an
      email without `@` is used whole. */
  lemma SignInNameFallback(email: string)
    ensures SignInName(None, email) == Split(email, "@")[0]
    ensures '@' !in email ==> SignInName(None, email) == email
  {
    SplitHeadIsBeforeFirst(email, '@');
  }

  /** What the authentication service reports: an error with its message,
      or success with the user it returned, if any. */
  datatype AuthUser = AuthUser(id: string, fullName: Option<string>)
  datatype AuthOutcome = AuthFailed(message: string) | AuthOk(user: Option<AuthUser>)

  /** A call made to the authentication service. */
  datatype AuthRequest =
    | SignUpRequest(email: string, password: string, fullName: string)
    | SignInRequest(email: string, password: string)

  /** A call of `onLogin(isSignup, { id, name, email })`. */
  datatype UserData = UserData(id: string, name: string, email: string)
  datatype LoginCall = LoginCall(isSignup: bool, user: UserData)

  class LoginForm {
    var isSignup: bool
    var email: string
    var password: string
    var name: string
    var confirmPassword: string
    var error: string
    var isLoading: bool
    /** The calls made to the authentication service, oldest first. */
    var requests: seq<AuthRequest>
    /** The calls of `onLogin`, oldest first. */
    var logins: seq<LoginCall>

    /** A blank sign-in form. */
    constructor()
      ensures !isSignup && email == "" && password == "" && name == "" && confirmPassword == ""
      ensures error == "" && !isLoading && requests == [] && logins == []
    {
      isSignup := false;
      email := "";
      password := "";
      name := "";
      confirmPassword := "";
      error := "";
      isLoading := false;
      requests := [];
      logins := [];
    }

    /** `handleSubmit`, with the service answering `outcome`. The error is
        cleared first. On sign-up a failing check becomes the error and
        nothing is sent; otherwise the request is sent, a failure reported
        by the service becomes the error, and a returned user is passed to
        `onLogin`. Loading always ends. */
    method HandleSubmit(outcome: AuthOutcome)
      modifies this
      ensures isSignup == old(isSignup) && email == old(email) && password == old(password)
      ensures name == old(name) && confirmPassword == old(confirmPassword)
      ensures !isLoading
      ensures isSignup && SignupError(name, password, confirmPassword).Some? ==>
                && error == SignupError(name, password, confirmPassword).value
                && requests == old(requests) && logins == old(logins)
      ensures isSignup && SignupError(name, password, confirmPassword).None? ==>
                requests == old(requests) + [SignUpRequest(email, password, name)]
      ensures !isSignup ==> requests == old(requests) + [SignInRequest(email, password)]
      ensures (!isSignup || SignupError(name, password, confirmPassword).None?) ==>
                match outcome
                case AuthFailed(m) => error == m && logins == old(logins)
                case AuthOk(None) => error == "" && logins == old(logins)
                case AuthOk(Some(u)) =>
                  && error == ""
                  && logins == old(logins) + [LoginCall(isSignup, UserData(
                       u.id, if isSignup then name else SignInName(u.fullName, email), email))]
    {
      error := "";
      isLoading := true;
      var failure: Option<string> := None;
      if isSignup {
        failure := SignupError(name, password, confirmPassword);
        if failure.None? {
          requests := requests + [SignUpRequest(email, password, name)];
          match outcome
          case AuthFailed(m) =>
            failure := Some(m);
          case AuthOk(u) =>
            if u.Some? {
              logins := logins + [LoginCall(true, UserData(u.value.id, name, email))];
            }
        }
      } else {
        requests := requests + [SignInRequest(email, password)];
        match outcome
        case AuthFailed(m) =>
          failure := Some(m);
        case AuthOk(u) =>
          if u.Some? {
            logins := logins + [LoginCall(false, UserData(u.value.id, SignInName(u.value.fullName, email), email))];
          }
      }
      if failure.Some? {
        error := failure.value;
      }
      isLoading := false;
    }

    /** `toggleMode`: switches between sign-in and sign-up and clears the
        error and both password fields; the email and the name stay. */
    method ToggleMode()
      modifies this
      ensures isSignup == !old(isSignup)
      ensures error == "" && password == "" && confirmPassword == ""
      ensures email == old(email) && name == old(name) && isLoading == old(isLoading)
      ensures requests == old(requests) && logins == old(logins)
    {
      isSignup := !isSignup;
      error := "";
      password := "";
      confirmPassword := "";
    }
  }
}
