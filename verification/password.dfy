/**
 The registration password policy, `validatePassword`: five rules checked in a fixed
 order, and the message of the first one the password breaks (or none).
 */
module Password {
  import opened Wrappers
  import opened Text

  /** Fewest UTF-16 code units a password may have. */
  const MinPasswordLength: nat := 8

  /** The policy's rules, one per message the screen can show. */
  datatype PasswordRule = MinLength | Uppercase | Lowercase | Digit | Special

  /** The order in which `validatePassword` checks the rules. */
  const PolicyOrder: seq<PasswordRule> := [MinLength, Uppercase, Lowercase, Digit, Special]

  /** A character of the class `[^A-Za-z0-9]`: anything but an ASCII letter or digit,
      so a space, punctuation and an accented letter all qualify. */
  predicate IsSpecialChar(c: char) {
    !IsAsciiUpper(c) && !IsAsciiLower(c) && !IsAsciiDigit(c)
  }

  /** `password` obeys `rule`. */
  predicate Satisfies(password: string, rule: PasswordRule) {
    match rule
    case MinLength => Utf16Length(password) >= MinPasswordLength
    case Uppercase => exists i :: 0 <= i < |password| && IsAsciiUpper(password[i])
    case Lowercase => exists i :: 0 <= i < |password| && IsAsciiLower(password[i])
    case Digit => exists i :: 0 <= i < |password| && IsAsciiDigit(password[i])
    case Special => exists i :: 0 <= i < |password| && IsSpecialChar(password[i])
  }

  /** The policy the comment above `validatePassword` states: at least eight characters,
      with an upper-case letter, a lower-case letter, a digit and a non-alphanumeric
      character. */
  ghost predicate IsStrongPassword(p: string) {
    && Utf16Length(p) >= 8
    && (exists i :: 0 <= i < |p| && 'A' <= p[i] <= 'Z')
    && (exists i :: 0 <= i < |p| && 'a' <= p[i] <= 'z')
    && (exists i :: 0 <= i < |p| && '0' <= p[i] <= '9')
    && (exists i :: 0 <= i < |p| && !('A' <= p[i] <= 'Z' || 'a' <= p[i] <= 'z' || '0' <= p[i] <= '9'))
  }

  /** The policy holds exactly when every rule does. */
  lemma StrongIffEveryRule(p: string)
    ensures IsStrongPassword(p) <==> forall q :: Satisfies(p, q)
  {
    if forall q :: Satisfies(p, q) {
      assert Satisfies(p, MinLength) && Satisfies(p, Uppercase) && Satisfies(p, Lowercase);
      assert Satisfies(p, Digit) && Satisfies(p, Special);
    }
  }

  /** Index of the first rule of `rules` that `password` breaks; `|rules|` when it
      breaks none. */
  function FirstBroken(password: string, rules: seq<PasswordRule>): (k: nat)
    ensures k <= |rules|
    ensures forall j :: 0 <= j < k ==> Satisfies(password, rules[j])
    ensures k < |rules| ==> !Satisfies(password, rules[k])
  {
    if |rules| == 0 then 0
    else if !Satisfies(password, rules[0]) then 0
    else 1 + FirstBroken(password, rules[1..])
  }

  /** Position of a rule in the policy order. */
  function Rank(rule: PasswordRule): (n: nat)
    ensures n < |PolicyOrder| && PolicyOrder[n] == rule
  {
    match rule
    case MinLength => 0
    case Uppercase => 1
    case Lowercase => 2
    case Digit => 3
    case Special => 4
  }

  /** `validatePassword`: `None` (JavaScript's `null`) for a password that keeps the whole
      policy, otherwise the first rule it breaks, every earlier rule being kept. */
  function ValidatePassword(password: string): (r: Option<PasswordRule>)
    ensures r.None? <==> IsStrongPassword(password)
    ensures r.Some? ==> !Satisfies(password, r.value)
    ensures r.Some? ==> forall q :: Rank(q) < Rank(r.value) ==> Satisfies(password, q)
    ensures Utf16Length(password) < MinPasswordLength ==> r == Some(MinLength)
  {
    var k := FirstBroken(password, PolicyOrder);
    StrongIffEveryRule(password);
    assert k == |PolicyOrder| ==> forall q :: Satisfies(password, q) by {
      if k == |PolicyOrder| {
        forall q
          ensures Satisfies(password, q)
        {
          assert PolicyOrder[Rank(q)] == q;
        }
      }
    }
    if k == |PolicyOrder| then
      None
    else
      assert forall q :: Rank(q) < k ==> Satisfies(password, q) by {
        forall q | Rank(q) < k
          ensures Satisfies(password, q)
        {
          assert PolicyOrder[Rank(q)] == q;
        }
      }
      assert Rank(PolicyOrder[k]) == k;
      Some(PolicyOrder[k])
  }

  /** The message the screen shows for a broken rule; each one opens with
      "La contraseña debe". */
  function Message(rule: PasswordRule): (m: string)
    ensures "La contraseña debe " <= m
  {
    match rule
    case MinLength => "La contraseña debe tener al menos 8 caracteres."
    case Uppercase => "La contraseña debe incluir al menos una letra mayúscula."
    case Lowercase => "La contraseña debe incluir al menos una letra minúscula."
    case Digit => "La contraseña debe incluir al menos un número."
    case Special => "La contraseña debe incluir al menos un carácter especial."
  }

  /** Each rule has its own message, so the message names the rule that failed. */
  lemma MessagesIdentifyRule(r1: PasswordRule, r2: PasswordRule)
    ensures Message(r1) == Message(r2) <==> r1 == r2
  {
  }

  /** A password with every character class but only seven characters is still
      refused for its length: the length rule is checked first. */
  lemma LengthRuleComesFirst()
    ensures ValidatePassword("Ab1$xyz") == Some(MinLength)
    ensures ValidatePassword("Ab1$xyzw") == None
  {
  }

  /** Only ASCII letters count as upper case: an accented capital does not. */
  lemma AccentedCapitalIsNotUppercase()
    ensures ValidatePassword("Ébcdefg1") == Some(Uppercase)
  {
    var p := "Ébcdefg1";
    Utf16LengthOfBmp(p);
    assert Satisfies(p, MinLength);
    assert !Satisfies(p, Uppercase) by {
      assert forall i :: 0 <= i < |p| ==> !IsAsciiUpper(p[i]);
    }
    assert Rank(Uppercase) == FirstBroken(p, PolicyOrder);
  }

  /** Any character outside `[A-Za-z0-9]`, an accented letter included, satisfies the
      special-character rule. */
  lemma AccentIsSpecial()
    ensures ValidatePassword("Abcdefg1é") == None
  {
  }

  /** A space, too, satisfies the special-character rule. */
  lemma SpaceIsSpecial()
    ensures ValidatePassword("Abcdef 1") == None
  {
    Utf16LengthOfBmp("Abcdef 1");
  }

  /** Length is counted in UTF-16 code units: three emoji are six units, so
      `Aa1` followed by three emoji (six characters, nine units) is long enough, and an
      emoji is a special character. */
  lemma EmojiCountTwice()
    ensures ValidatePassword("Aa1\U{1F600}\U{1F600}\U{1F600}") == None
  {
    var p := "Aa1\U{1F600}\U{1F600}\U{1F600}";
    AstralCountsTwo('\U{1F600}');
    Utf16LengthAppend("Aa1", "\U{1F600}\U{1F600}\U{1F600}");
    Utf16LengthAppend("\U{1F600}", "\U{1F600}\U{1F600}");
    Utf16LengthAppend("\U{1F600}", "\U{1F600}");
    assert p == "Aa1" + "\U{1F600}\U{1F600}\U{1F600}";
  }
}
