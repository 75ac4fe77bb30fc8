# ZaHub client: account-form validation model

A Dafny model of the account screens of the ZaHub pizza-ordering app: the
registration screen (`handleRegister`, `validatePassword`, `isValidEmail`) and the
login screen (`handleLogin`, `ensureClientRole`). Both screens check their form
fields in a fixed order and report the first failure. Only then do they call the
hosted auth service. They turn its reply into one of a fixed set of messages, and
the login screen also turns away any account whose role is not `CLIENTE`.

Layout, one module per file:

- `wrappers.dfy`, module `Wrappers`: `Option` (JavaScript's `undefined`/`null`) and `Result`.
- `text.dfy`, module `Text`: the JavaScript string primitives the screens use. These
  are the `\s` class and `trim()` (the ECMAScript WhiteSpace and LineTerminator code
  points), `length` in UTF-16 code units, `toLowerCase`/`toUpperCase` on ASCII letters,
  and `includes`.
- `auth.dfy`, module `Auth`: the client role both screens share, the auth service's
  error object and the lower-cased message both screens classify.
- `email.dfy`, module `Email`: `IsValidEmail`, the check both screens use. `EmailPattern`
  is the language of `^[^\s@]+@[^\s@]+\.[^\s@]+$`; a lemma proves the direct scan
  `ScansAsEmail` accepts exactly that language, and `IsValidEmail` states it.
- `password.dfy`, module `Password`: the five ordered password rules.
- `register.dfy`, module `Register`: the registration pipeline and the sign-up reply
  classification.
- `login.dfy`, module `Login`: the login pipeline, the sign-in error classification and
  the role gate.
- `screens.dfy`, module `Screens`: facts relating the two screens.

The auth service calls (`signUp`, `signInWithPassword`, `getUser`, `signOut`) are network
I/O. Their replies are inputs: `SignUpResponse`, `SignInResponse`, `GetUserResponse`. A
call that throws is the `…Threw` variant of its reply. A `signOut` call is recorded as
the `signedOut` flag of a login run. Each screen outcome is a datatype with one variant
per message shown, and `Message` gives the exact Spanish text of each. Lengths are
counted as JavaScript counts them, in UTF-16 code units, so a character outside the
Basic Multilingual Plane counts twice.

## Model

| member | source | states |
|---|---|---|
| Text.IsSpace | app/register.tsx:17 | the `\s` class: a whitespace character is never an ASCII letter, a digit, `@` or `.`, and is one UTF-16 code unit |
| Text.Utf16Length | app/register.tsx:62 | `length` counts UTF-16 code units: never fewer than the characters, at most twice as many, positive for non-empty text, and equal to the character count iff no character lies above U+FFFF |
| Text.Utf16LengthAppend | app/register.tsx:23 | the length of a concatenation is the sum of the lengths |
| Text.AstralCountsTwo | app/register.tsx:23 | a character above U+FFFF has length 2 |
| Text.Utf16LengthOfBmp | app/register.tsx:23 | on text of Basic Multilingual Plane characters, `length` is the character count |
| Text.Trim | app/register.tsx:62 | `trim()` drops the leading and trailing whitespace run; the result is the rest of the text and neither starts nor ends with whitespace |
| Text.TrimEmptyIffAllSpace | app/register.tsx:57-65 | trimming yields the empty text exactly when every character is whitespace |
| Text.TrimIdempotent | app/register.tsx:86 | trimming the already-trimmed name changes nothing |
| Text.ToLowerAscii | app/register.tsx:100 | lower-casing keeps the length and maps every character through the ASCII lower-case map |
| Text.ToUpperAscii | app/login.tsx:38 | upper-casing keeps the length and maps every character through the ASCII upper-case map |
| Text.ToLowerIdempotent | app/login.tsx:74 | lower-casing a lower-cased text changes nothing |
| Text.UpperCharToCapital | app/login.tsx:38-40 | a character upper-cases to an ASCII capital iff it is that capital or its lower-case letter |
| Text.UpperEqualsIffSpelling | app/login.tsx:38-40 | `s.toUpperCase()` equals an all-capitals word iff `s` spells that word letter by letter in either case |
| Text.Contains | app/register.tsx:102-108 | `includes` is true iff the needle occurs at some index of the text |
| Text.ContainsTransitive | app/register.tsx:103-105 | a text containing a phrase contains every substring of that phrase |
| Auth.LowerMessage | app/register.tsx:100 | a missing message reads as the empty text; otherwise each character of the message through the lower-case map, so the same length with no capital left |
| Auth.LowerMessageIgnoresCase | app/login.tsx:74 | a message and its lower-cased copy read the same |
| Email.EmailPattern | app/register.tsx:17 | every word of the regular expression's language has at least five characters and an `@` past the first |
| Email.ScanIffPattern | app/register.tsx:16-19 | the direct scan (no whitespace, one `@` with text before it, a `.` neither first nor last after it) accepts exactly the language of the regular expression |
| Email.IsValidEmail | app/register.tsx:16-19 | `isValidEmail` accepts a string iff the regular expression matches it; the login screen's copy (app/login.tsx, lines 15-18) is the same function |
| Email.LooseDomainDots | app/register.tsx:17 | `a@..c` and `a@b.c.` are accepted: the domain may start or end with a dot |
| Email.DomainNeedsDot | app/register.tsx:17 | `ab@cde` is refused: the domain has no dot |
| Email.SecondAtRefused | app/login.tsx:16 | `a@b@c.d` is refused |
| Password.StrongIffEveryRule | app/register.tsx:21-39 | the stated policy (8 code units, an A-Z, an a-z, a 0-9, a non-alphanumeric) holds iff each of the five rules does |
| Password.FirstBroken | app/register.tsx:23-37 | the index returned is that of a broken rule with every earlier rule kept, or the list length when none is broken |
| Password.ValidatePassword | app/register.tsx:22-39 | `null` iff the password meets the whole policy; otherwise a rule it breaks with every earlier rule kept; under 8 code units it is always the length rule |
| Password.Message | app/register.tsx:23-37 | every password message opens with "La contraseña debe " |
| Password.MessagesIdentifyRule | app/register.tsx:23-37 | two rules give the same message iff they are the same rule |
| Password.LengthRuleComesFirst | app/register.tsx:23-25 | `Ab1$xyz` (every class, 7 characters) gets the length message; `Ab1$xyzw` passes |
| Password.AccentedCapitalIsNotUppercase | app/register.tsx:26-28 | `Ébcdefg1` gets the upper-case message: only `A-Z` counts |
| Password.AccentIsSpecial | app/register.tsx:35-37 | `Abcdefg1é` passes: an accented letter is a special character |
| Password.EmojiCountTwice | app/register.tsx:23-37 | `Aa1` followed by three emoji (six characters, nine code units) passes: each emoji counts two units and is a special character |
| Password.SpaceIsSpecial | app/register.tsx:35-37 | `Abcdef 1` passes: a space is a special character |
| Register.ValidateRegistration | app/register.tsx:57-76 | success iff every field is filled, the trimmed name has 3+ code units, the e-mail is valid and the password strong; each problem is reported iff every earlier check passed; success carries the trimmed name and role `CLIENTE` |
| Register.ClassifySignUpError | app/register.tsx:100-116 | a sign-up error is the duplicate, password or generic message; a message with "already registered" or "already exists" is always the duplicate; the password message needs "password" and neither duplicate phrase; the generic one needs none of them |
| Register.IsSilentDuplicate | app/register.tsx:93 | an error-free reply whose user has zero identities is a silent duplicate; only an error-free reply carrying a user can be one; a user with no identities array, or with one or more identities, is not |
| Register.IdentitiesDecideSilentDuplicate | app/register.tsx:93-96 | an error-free reply is "already registered" iff its user has zero identities; one or more identities, no identities array or no user is a success |
| Register.ClassifySignUp | app/register.tsx:92-125 | success iff the reply has no error and no user with zero identities; such a user means "already registered"; a throw is the unexpected-error message; an error reply is classified by its lower-cased message |
| Register.HandleRegister | app/register.tsx:53-125 | a request is sent iff the form passes, and then it holds the typed e-mail and password, the trimmed name and role `CLIENTE`, and the outcome is the classification of the reply; a refused form shows exactly the problem the validation reports; success implies a passing form and an error-free reply |
| Register.Message | app/register.tsx:58-125 | every outcome but success shows an error text and success shows none; a weak password shows the message of the rule it breaks |
| Register.RefusedFormIgnoresService | app/register.tsx:57-76 | a refused form sends nothing and its outcome does not depend on the service's reply |
| Register.BlankNameIsTooShort | app/register.tsx:57-65 | a name of spaces only passes the emptiness check but fails the length check |
| Register.ShortPasswordRefusedForLength | app/register.tsx:72-76 | past the name and e-mail checks, a password under 8 code units always gets the length message |
| Register.DuplicatePhrasesReduceToTwo | app/register.tsx:102-111 | the classification is the same with only "already registered" and "already exists": the "user already exists" test never decides |
| Register.DuplicateBeatsPassword | app/register.tsx:102-108 | a message with both "already exists" and "password" is classified as a duplicate |
| Register.ClassificationIgnoresCase | app/register.tsx:100-116 | a message and its lower-cased copy are classified alike |
| Login.ValidateLogin | app/login.tsx:54-62 | an empty e-mail or password gives the fill-in message; otherwise an invalid e-mail gives the e-mail message; the form passes iff both are filled and the e-mail is in the regular expression's language |
| Login.ClassifySignInError | app/login.tsx:72-86 | the wrong-credentials message iff the lower-cased message contains "invalid login credentials" or "invalid email or password"; else the generic one |
| Login.EnsureClientRole | app/login.tsx:29-49 | no session iff the lookup failed or gave no user; accepted iff there is a user whose role (missing read as "") spells `CLIENTE` in any letter case |
| Login.HandleLogin | app/login.tsx:29-103 | sign-in is called iff the form passes, and a refused form shows the problem the validation reports; a sign-in error is classified by its lower-cased message; the unexpected-error message iff sign-in throws, or a clean sign-in is followed by a throwing user lookup; after a clean sign-in and a returned lookup, sign-out happens iff the role gate rejects, with the no-session message for no session and the not-a-client message for another role; the tabs open iff the gate accepts |
| Login.Message | app/login.tsx:34-100 | every outcome but entering the app shows an error text, and entering shows none |
| Login.RoleGateExamples | app/login.tsx:38-40 | `cliente`, `Cliente`, `CLIENTE` pass; a missing role, `ADMIN`, ` cliente` fail; a failed lookup is no session |
| Login.RefusedFormIgnoresService | app/login.tsx:54-62 | a refused form's outcome does not depend on any reply of the service |
| Login.SignInErrorSkipsRoleGate | app/login.tsx:72-87 | after a sign-in error the role lookup is irrelevant and nobody is signed out |
| Login.SignInErrorClassification | app/login.tsx:72-86 | with a passing form, a sign-in error with message `m` is wrong credentials iff `m` lower-cased contains one of the two phrases, else the generic failure |
| Screens.SameEmailRuleOnBothScreens | app/login.tsx:15-18 | past the earlier checks, the registration screen refuses an e-mail iff the login screen does, with the same message |
| Screens.RegisteredRoleIsAdmitted | app/register.tsx:84-88 | for every form the registration screen accepts, the role in its sign-up request is one the login gate admits |

## Left out

- Rendering, React state setters, the loading flag, the password-visibility and
  password-info toggles and navigation are user interface only. Opening the tabs is the
  `EnteredApp` outcome and the success dialog is the `Registered` outcome.
- The auth service and its network calls are not modelled; their replies are inputs.
  Console logging is left out.
- A `signOut` call that throws inside the role gate would reach the login screen's
  `catch`. The model records only that sign-out happened.
- Text.ToLowerAscii: maps ASCII letters only, while JavaScript's `toLowerCase` maps all of
  Unicode. This cannot change a classification. The only non-ASCII characters that
  `toLowerCase` turns into ASCII are the Kelvin sign U+212A (to `k`) and U+0130 (to `i`
  followed by U+0307). None of the phrases the screens search for contains `k`, and
  an `i` from U+0130 is always followed by U+0307, which no phrase has after its `i`.
- Text.ToUpperAscii: maps ASCII letters only. JavaScript's `toUpperCase` also turns the
  dotless `ı` (U+0131) into `I`, so the real gate admits `clıente` and the model does not.
- Text.IsSpace is the ECMAScript whitespace set as of current Unicode; JavaScript
  strings may also hold unpaired surrogates, which a Dafny `char` cannot, so such
  strings are outside the model.
- Login.SessionUser: a truthy non-string role (a number, an object) is given as the
  text `String()` makes of it; the model takes that text as input.
- The app's cart, pricing, ingredient selection and checkout live in other screens and
  are outside these account forms, so they are not part of this model.
