/**
 The registration screen's `handleRegister`: four form checks in a fixed order, the
 first failure wins; then one sign-up call to the auth service, whose reply is sorted
 into the message the screen shows.
 */
module Register {
  import opened Wrappers
  import opened Text
  import opened Email
  import opened Password
  import opened Auth

  /** Fewest UTF-16 code units the trimmed name may have. */
  const MinNameLength: nat := 3

  /** The three text fields of the form, as typed. */
  datatype RegisterForm = RegisterForm(name: string, email: string, password: string)

  /** What is sent to the auth service: the credentials and the user metadata
      (`full_name`, `role`). */
  datatype SignUpRequest = SignUpRequest(email: string, password: string, fullName: string, role: string)

  /** Why the form was refused before any call was made. */
  datatype FormProblem = FieldsMissing | NameTooShort | EmailMalformed | WeakPassword(rule: PasswordRule)

  /** The user object of a sign-up reply; `identities` is the length of its identities
      array, absent when the array is. */
  datatype SignUpUser = SignUpUser(identities: Option<nat>)

  /** The sign-up call: it either returns `{ data, error }` or throws. */
  datatype SignUpResponse =
    | SignUpReturned(error: Option<AuthError>, user: Option<SignUpUser>)
    | SignUpThrew

  /** Everything the screen can end with, one variant per message it shows
      (`Registered` opens the success dialog instead). */
  datatype RegisterOutcome =
    | FormRejected(problem: FormProblem)
    | AlreadyRegistered
    | PasswordRefused
    | SignUpFailed
    | UnexpectedError
    | Registered

  /** One press of the register button: the request sent, if any, and the outcome. */
  datatype RegisterRun = RegisterRun(request: Option<SignUpRequest>, outcome: RegisterOutcome)

  /** No field is the empty string (JavaScript's `!name || !email || !password` fails). */
  predicate FieldsFilled(form: RegisterForm) {
    form.name != "" && form.email != "" && form.password != ""
  }

  /** `name.trim().length >= 3`. */
  predicate NameLongEnough(name: string) {
    Utf16Length(Trim(name)) >= MinNameLength
  }

  /** The checks `handleRegister` makes before calling the service: any field empty,
      then the trimmed name too short, then a malformed e-mail, then the password policy.
      Each problem is reported only when every earlier check passed, and a form passing
      all four yields the request with the trimmed name and the client role. */
  function ValidateRegistration(form: RegisterForm): (r: Result<SignUpRequest, FormProblem>)
    ensures r.Success? <==>
      FieldsFilled(form) && NameLongEnough(form.name) && IsValidEmail(form.email)
      && IsStrongPassword(form.password)
    ensures r.Success? ==> r.value == SignUpRequest(form.email, form.password, Trim(form.name), ClientRole)
    ensures r == Failure(FieldsMissing) <==> !FieldsFilled(form)
    ensures r == Failure(NameTooShort) <==> FieldsFilled(form) && !NameLongEnough(form.name)
    ensures r == Failure(EmailMalformed) <==>
      FieldsFilled(form) && NameLongEnough(form.name) && !IsValidEmail(form.email)
    ensures r.Failure? && r.error.WeakPassword? <==>
      FieldsFilled(form) && NameLongEnough(form.name) && IsValidEmail(form.email)
      && !IsStrongPassword(form.password)
    ensures r.Failure? && r.error.WeakPassword? ==> ValidatePassword(form.password) == Some(r.error.rule)
  {
    if !FieldsFilled(form) then Failure(FieldsMissing)
    else if !NameLongEnough(form.name) then Failure(NameTooShort)
    else if !IsValidEmail(form.email) then Failure(EmailMalformed)
    else match ValidatePassword(form.password)
      case Some(rule) => Failure(WeakPassword(rule))
      case None => Success(SignUpRequest(form.email, form.password, Trim(form.name), ClientRole))
  }

  /** Sorting a sign-up error by its lower-cased message: a duplicate-account phrase
      first, then any mention of "password", else the generic failure. */
  function ClassifySignUpError(text: string): (r: RegisterOutcome)
    ensures r.AlreadyRegistered? || r.PasswordRefused? || r.SignUpFailed?
    ensures Contains(text, "already registered") || Contains(text, "already exists") ==> r.AlreadyRegistered?
    ensures r.PasswordRefused? ==>
      Contains(text, "password") && !Contains(text, "already exists")
      && !Contains(text, "already registered")
    ensures r.SignUpFailed? ==>
      !Contains(text, "password") && !Contains(text, "already exists")
      && !Contains(text, "already registered")
  {
    if Contains(text, "already registered")
      || Contains(text, "user already exists")
      || Contains(text, "already exists")
    then AlreadyRegistered
    else if Contains(text, "password") then PasswordRefused
    else SignUpFailed
  }

  /** The reply says "no error" and hands back a user whose identities list is empty:
      the service's way of answering for an address already signed up. A user with no
      identities array at all is not one (`undefined === 0` is false). */
  function IsSilentDuplicate(error: Option<AuthError>, user: Option<SignUpUser>): (b: bool)
    ensures b ==> error.None? && user.Some?
    ensures error.None? && user == Some(SignUpUser(Some(0))) ==> b
    ensures user.Some? && user.value.identities.None? ==> !b
    ensures user.Some? && user.value.identities.Some? && user.value.identities.value > 0 ==> !b
  {
    error.None? && user.Some? && user.value.identities == Some(0)
  }

  /** What the screen makes of the sign-up reply. Only a reply without error counts as
      success, and not when it carries a user with no identities; a thrown call is the
      unexpected-error message; an error reply is sorted by its message. */
  function ClassifySignUp(response: SignUpResponse): (r: RegisterOutcome)
    ensures !r.FormRejected?
    ensures r == Registered <==>
      response.SignUpReturned? && response.error.None?
      && !IsSilentDuplicate(response.error, response.user)
    ensures r == UnexpectedError <==> response.SignUpThrew?
    ensures response.SignUpReturned? && IsSilentDuplicate(response.error, response.user)
      ==> r == AlreadyRegistered
    ensures response.SignUpReturned? && response.error.Some? ==>
      r == ClassifySignUpError(LowerMessage(response.error.value))
  {
    match response
    case SignUpThrew => UnexpectedError
    case SignUpReturned(error, user) =>
      if IsSilentDuplicate(error, user) then AlreadyRegistered
      else if error.Some? then ClassifySignUpError(LowerMessage(error.value))
      else Registered
  }

  /** `handleRegister`: the service is asked only when the form passes, with the
      trimmed name and the client role; a refused form never reaches it. */
  function HandleRegister(form: RegisterForm, response: SignUpResponse): (run: RegisterRun)
    ensures run.request.Some? <==> ValidateRegistration(form).Success?
    ensures run.request.None? <==> run.outcome.FormRejected?
    ensures run.request.Some? ==>
      run.request.value == SignUpRequest(form.email, form.password, Trim(form.name), ClientRole)
    ensures run.outcome == Registered ==>
      FieldsFilled(form) && NameLongEnough(form.name) && IsValidEmail(form.email)
      && IsStrongPassword(form.password) && response.SignUpReturned? && response.error.None?
    ensures run.request.Some? ==> run.outcome == ClassifySignUp(response)
    ensures run.outcome.FormRejected? ==> ValidateRegistration(form) == Failure(run.outcome.problem)
  {
    match ValidateRegistration(form)
    case Failure(problem) => RegisterRun(None, FormRejected(problem))
    case Success(request) => RegisterRun(Some(request), ClassifySignUp(response))
  }

  /** The error text the screen shows, or `None` for the success dialog; a weak password
      shows the message of the rule it breaks. */
  function Message(outcome: RegisterOutcome): (m: Option<string>)
    ensures m.None? <==> outcome == Registered
    ensures outcome.FormRejected? && outcome.problem.WeakPassword? ==>
      m == Some(Password.Message(outcome.problem.rule))
  {
    match outcome
    case FormRejected(FieldsMissing) => Some("Por favor completa todos los campos.")
    case FormRejected(NameTooShort) => Some("El nombre debe tener al menos 3 caracteres.")
    case FormRejected(EmailMalformed) => Some("Ingresa un correo electrónico válido.")
    case FormRejected(WeakPassword(rule)) => Some(Password.Message(rule))
    case AlreadyRegistered => Some("Este correo ya está registrado. Intenta iniciar sesión.")
    case PasswordRefused => Some("La contraseña no cumple los requisitos. Revisa las indicaciones.")
    case SignUpFailed => Some("Ocurrió un error al registrarte. Intenta de nuevo más tarde.")
    case UnexpectedError => Some("Ocurrió un error al registrarte. Intenta de nuevo.")
    case Registered => None
  }

  /* ---------------------------------------------------------------- properties */

  /** A refused form never depends on the service: whatever the reply would have been,
      the run is the same and sends nothing. */
  lemma RefusedFormIgnoresService(form: RegisterForm, r1: SignUpResponse, r2: SignUpResponse)
    requires ValidateRegistration(form).Failure?
    ensures HandleRegister(form, r1) == HandleRegister(form, r2)
    ensures HandleRegister(form, r1).request.None?
  {
  }

  /** An error-free sign-up reply is "already registered" exactly when its user has an
      empty identities list; one or more identities, no identities list or no user at all
      is a success. */
  lemma IdentitiesDecideSilentDuplicate(n: nat)
    ensures ClassifySignUp(SignUpReturned(None, Some(SignUpUser(Some(n)))))
         == (if n == 0 then AlreadyRegistered else Registered)
    ensures ClassifySignUp(SignUpReturned(None, Some(SignUpUser(None)))) == Registered
    ensures ClassifySignUp(SignUpReturned(None, None)) == Registered
  {
  }

  /** A name of spaces only passes the emptiness check but not the length check. */
  lemma BlankNameIsTooShort(form: RegisterForm)
    requires FieldsFilled(form)
    requires forall i :: 0 <= i < |form.name| ==> IsSpace(form.name[i])
    ensures HandleRegister(form, SignUpThrew).outcome == FormRejected(NameTooShort)
  {
  }

  /** Once the fields are filled and the name is long enough, a password shorter than
      eight code units is refused for its length, whatever characters it holds. */
  lemma ShortPasswordRefusedForLength(form: RegisterForm, response: SignUpResponse)
    requires FieldsFilled(form) && NameLongEnough(form.name) && IsValidEmail(form.email)
    requires Utf16Length(form.password) < MinPasswordLength
    ensures HandleRegister(form, response).outcome == FormRejected(WeakPassword(MinLength))
  {
  }

  /** The "user already exists" test can never decide anything: any text containing it
      contains "already exists", the test that follows it. So the classification is the
      same with the two duplicate phrases "already registered" and "already exists". */
  lemma DuplicatePhrasesReduceToTwo(text: string)
    ensures ClassifySignUpError(text) == AlreadyRegistered <==>
      Contains(text, "already registered") || Contains(text, "already exists")
    ensures ClassifySignUpError(text) == PasswordRefused <==>
      !Contains(text, "already registered") && !Contains(text, "already exists")
      && Contains(text, "password")
  {
    if Contains(text, "user already exists") {
      assert OccursAt("user already exists", "already exists", 5);
      ContainsTransitive(text, "user already exists", "already exists");
    }
  }

  /** A message naming both a duplicate account and the password is a duplicate: the
      duplicate phrases are checked first. */
  lemma DuplicateBeatsPassword(m: string, user: Option<SignUpUser>)
    requires Contains(ToLowerAscii(m), "already exists")
    requires Contains(ToLowerAscii(m), "password")
    ensures ClassifySignUp(SignUpReturned(Some(AuthError(Some(m))), user)) == AlreadyRegistered
  {
  }

  /** The classification ignores letter case: the message and its lower-cased copy
      lead to the same outcome. */
  lemma ClassificationIgnoresCase(m: string, user: Option<SignUpUser>)
    ensures ClassifySignUp(SignUpReturned(Some(AuthError(Some(m))), user))
         == ClassifySignUp(SignUpReturned(Some(AuthError(Some(ToLowerAscii(m)))), user))
  {
    LowerMessageIgnoresCase(m);
  }
}
