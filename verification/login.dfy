/**
 The login screen's `handleLogin`: two form checks, one sign-in call, and the role gate
 `ensureClientRole`, which reads the signed-in user back and lets only client accounts
 into the app, signing everyone else out again.
 */
module Login {
  import opened Wrappers
  import opened Text
  import opened Email
  import opened Auth

  /** Why the form was refused before any call was made. */
  datatype LoginProblem = CredentialsMissing | EmailMalformed

  /** The sign-in call: it either returns `{ error }` or throws. */
  datatype SignInResponse = SignInReturned(error: Option<AuthError>) | SignInThrew

  /** The signed-in user as the gate sees it. `role` is `String(user_metadata.role)` when
      that value is truthy and absent otherwise (missing, `null`, the empty text). */
  datatype SessionUser = SessionUser(role: Option<string>)

  /** The `getUser` call: it returns an error flag and the user, or throws. */
  datatype GetUserResponse = GetUserReturned(failed: bool, user: Option<SessionUser>) | GetUserThrew

  /** The verdict of `ensureClientRole` on a reply that did not throw. */
  datatype RoleCheck = ClientConfirmed | NoSession | NotClient

  /** Everything the screen can end with, one variant per message it shows
      (`EnteredApp` replaces the screen with the tabs instead). */
  datatype LoginOutcome =
    | FormRejected(problem: LoginProblem)
    | WrongCredentials
    | SignInFailed
    | SessionUnavailable
    | NotAClient
    | UnexpectedError
    | EnteredApp

  /** One press of the login button: whether sign-in was called, whether the session was
      signed out again, and the outcome. */
  datatype LoginRun = LoginRun(signInAttempted: bool, signedOut: bool, outcome: LoginOutcome)

  /** The checks before the call: an empty e-mail or password first, then the e-mail
      shape. `None` means the service is asked. */
  function ValidateLogin(email: string, password: string): (r: Option<LoginProblem>)
    ensures r == Some(CredentialsMissing) <==> email == "" || password == ""
    ensures r == Some(EmailMalformed) <==> email != "" && password != "" && !IsValidEmail(email)
    ensures r.None? <==> email != "" && password != "" && EmailPattern(email)
  {
    if email == "" || password == "" then Some(CredentialsMissing)
    else if !IsValidEmail(email) then Some(EmailMalformed)
    else None
  }

  /** Sorting a sign-in error by its lower-cased message: the two wrong-credentials
      phrases, else the generic failure. */
  function ClassifySignInError(text: string): (r: LoginOutcome)
    ensures r == WrongCredentials || r == SignInFailed
    ensures r == WrongCredentials <==>
      exists i :: OccursAt(text, "invalid login credentials", i) || OccursAt(text, "invalid email or password", i)
  {
    if Contains(text, "invalid login credentials") || Contains(text, "invalid email or password")
    then WrongCredentials
    else SignInFailed
  }

  /** The client role spelled in any mix of upper and lower case. */
  ghost predicate SpellsClient(role: string) {
    |role| == |ClientRole|
    && forall i :: 0 <= i < |role| ==> role[i] == ClientRole[i] || role[i] == LowerChar(ClientRole[i])
  }

  /** `ensureClientRole` on a reply that returned: no user or an error means no
      session; otherwise the upper-cased role (missing counting as "") must be exactly
      `CLIENTE`, so any capitalisation of it passes and nothing else does. */
  function EnsureClientRole(failed: bool, user: Option<SessionUser>): (c: RoleCheck)
    ensures c == NoSession <==> failed || user.None?
    ensures c == ClientConfirmed <==> !failed && user.Some? && SpellsClient(user.value.role.GetOr(""))
  {
    if failed || user.None? then NoSession
    else
      var role := user.value.role.GetOr("");
      UpperEqualsIffSpelling(role, ClientRole);
      if ToUpperAscii(role) != ClientRole then NotClient
      else ClientConfirmed
  }

  /** `handleLogin`. A refused form calls nothing. A sign-in that throws, or a role
      lookup that throws, is the unexpected-error message. A sign-in error is sorted by
      its message. After a clean sign-in the role gate runs: a missing session or a
      non-client role signs the user out again, and only a confirmed client enters. */
  function HandleLogin(email: string, password: string, signIn: SignInResponse, getUser: GetUserResponse)
    : (run: LoginRun)
    ensures run.signInAttempted <==> ValidateLogin(email, password).None?
    ensures run.outcome.FormRejected? <==> !run.signInAttempted
    ensures run.outcome == EnteredApp <==>
      && email != "" && password != "" && EmailPattern(email)
      && signIn == SignInReturned(None)
      && getUser.GetUserReturned? && !getUser.failed && getUser.user.Some?
      && SpellsClient(getUser.user.value.role.GetOr(""))
    ensures run.signedOut <==> run.outcome == SessionUnavailable || run.outcome == NotAClient
    ensures run.signedOut ==> run.signInAttempted && signIn == SignInReturned(None)
    ensures ValidateLogin(email, password).None? && signIn == SignInReturned(None) && getUser.GetUserReturned? ==>
      (run.signedOut <==> EnsureClientRole(getUser.failed, getUser.user) != ClientConfirmed)
    ensures run.outcome == SessionUnavailable <==>
      && run.signInAttempted && signIn == SignInReturned(None) && getUser.GetUserReturned?
      && EnsureClientRole(getUser.failed, getUser.user) == NoSession
    ensures run.outcome == NotAClient <==>
      && run.signInAttempted && signIn == SignInReturned(None) && getUser.GetUserReturned?
      && EnsureClientRole(getUser.failed, getUser.user) == NotClient
    ensures run.outcome == UnexpectedError <==>
      run.signInAttempted && (signIn.SignInThrew? || (signIn == SignInReturned(None) && getUser.GetUserThrew?))
    ensures run.signInAttempted && signIn.SignInReturned? && signIn.error.Some? ==>
      run.outcome == ClassifySignInError(LowerMessage(signIn.error.value))
    ensures run.outcome.FormRejected? ==> ValidateLogin(email, password) == Some(run.outcome.problem)
  {
    match ValidateLogin(email, password)
    case Some(problem) => LoginRun(false, false, FormRejected(problem))
    case None =>
      match signIn
      case SignInThrew => LoginRun(true, false, UnexpectedError)
      case SignInReturned(Some(error)) => LoginRun(true, false, ClassifySignInError(LowerMessage(error)))
      case SignInReturned(None) =>
        match getUser
        case GetUserThrew => LoginRun(true, false, UnexpectedError)
        case GetUserReturned(failed, user) =>
          match EnsureClientRole(failed, user)
          case NoSession => LoginRun(true, true, SessionUnavailable)
          case NotClient => LoginRun(true, true, NotAClient)
          case ClientConfirmed => LoginRun(true, false, EnteredApp)
  }

  /** The error text the screen shows, or `None` when it moves on to the tabs. */
  function Message(outcome: LoginOutcome): (m: Option<string>)
    ensures m.None? <==> outcome == EnteredApp
  {
    match outcome
    case FormRejected(CredentialsMissing) => Some("Por favor ingresa tu correo y tu contraseña.")
    case FormRejected(EmailMalformed) => Some("Ingresa un correo electrónico válido.")
    case WrongCredentials => Some("Correo o contraseña incorrectos.")
    case SignInFailed => Some("No se pudo iniciar sesión. Revisa tus datos e inténtalo nuevamente.")
    case SessionUnavailable => Some("No se pudo obtener la sesión. Intenta de nuevo.")
    case NotAClient => Some("Tu cuenta no tiene permisos de CLIENTE para usar esta aplicación.")
    case UnexpectedError => Some("Ocurrió un error inesperado al iniciar sesión. Intenta de nuevo.")
    case EnteredApp => None
  }

  /* ---------------------------------------------------------------- properties */

  /** The gate ignores case but nothing else: "cliente" and "Cliente" pass, while a
      missing role, another role and a padded spelling are turned away. */
  lemma RoleGateExamples()
    ensures EnsureClientRole(false, Some(SessionUser(Some("cliente")))) == ClientConfirmed
    ensures EnsureClientRole(false, Some(SessionUser(Some("Cliente")))) == ClientConfirmed
    ensures EnsureClientRole(false, Some(SessionUser(Some("CLIENTE")))) == ClientConfirmed
    ensures EnsureClientRole(false, Some(SessionUser(None))) == NotClient
    ensures EnsureClientRole(false, Some(SessionUser(Some("ADMIN")))) == NotClient
    ensures EnsureClientRole(false, Some(SessionUser(Some(" cliente")))) == NotClient
    ensures EnsureClientRole(true, Some(SessionUser(Some("CLIENTE")))) == NoSession
  {
  }

  /** A refused form never depends on the service. */
  lemma RefusedFormIgnoresService(email: string, password: string,
                                  s1: SignInResponse, g1: GetUserResponse,
                                  s2: SignInResponse, g2: GetUserResponse)
    requires ValidateLogin(email, password).Some?
    ensures HandleLogin(email, password, s1, g1) == HandleLogin(email, password, s2, g2)
  {
  }

  /** A failed sign-in never reaches the role gate: the role lookup's reply is
      irrelevant and nobody is signed out. */
  lemma SignInErrorSkipsRoleGate(email: string, password: string, error: AuthError,
                                 g1: GetUserResponse, g2: GetUserResponse)
    ensures HandleLogin(email, password, SignInReturned(Some(error)), g1)
         == HandleLogin(email, password, SignInReturned(Some(error)), g2)
    ensures !HandleLogin(email, password, SignInReturned(Some(error)), g1).signedOut
  {
  }

  /** A sign-in error is wrong credentials exactly when its message, in any case,
      carries one of the two phrases; everything else is the generic failure. */
  lemma SignInErrorClassification(email: string, password: string, m: string, g: GetUserResponse)
    requires ValidateLogin(email, password).None?
    ensures var out := HandleLogin(email, password, SignInReturned(Some(AuthError(Some(m)))), g).outcome;
      (out == WrongCredentials || out == SignInFailed)
      && (out == WrongCredentials <==>
          Contains(ToLowerAscii(m), "invalid login credentials")
          || Contains(ToLowerAscii(m), "invalid email or password"))
  {
  }
}
