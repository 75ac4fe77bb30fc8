/**
 The e-mail shape check both account screens apply before calling the auth service:
 the regular expression `^[^\s@]+@[^\s@]+\.[^\s@]+$`. `EmailPattern` is the language that
 expression denotes; `ScansAsEmail` is the direct scan, `ScanIffPattern` shows
 the two agree on every string, and `IsValidEmail`, the check both screens use, carries
 that agreement as its contract.
 */
module Email {
  import opened Wrappers
  import opened Text

  /** A character of the class `[^\s@]`. */
  predicate IsAddressChar(c: char) {
    !IsSpace(c) && c != '@'
  }

  /** Every character of `t` is in `[^\s@]`. */
  predicate AllAddressChars(t: string) {
    forall i :: 0 <= i < |t| ==> IsAddressChar(t[i])
  }

  /** `s` reads as `A@B.C` with the '@' at `at` and the separating '.' at `dot`,
      each of `A`, `B`, `C` a non-empty run of `[^\s@]`. */
  ghost predicate SplitsAsEmail(s: string, at: int, dot: int) {
    && 0 < at && at + 1 < dot && dot + 1 < |s|
    && s[at] == '@' && s[dot] == '.'
    && AllAddressChars(s[..at])
    && AllAddressChars(s[at + 1..dot])
    && AllAddressChars(s[dot + 1..])
  }

  /** The language of `^[^\s@]+@[^\s@]+\.[^\s@]+$` (no multiline flag, so `$` is the
      end of the input). Its shortest words, such as `a@b.c`, have five characters, and
      each has an '@' past the first character. */
  ghost function EmailPattern(s: string): (b: bool)
    ensures b ==> 5 <= |s| && '@' in s[1..]
  {
    if exists at, dot :: SplitsAsEmail(s, at, dot) then
      var at, dot :| SplitsAsEmail(s, at, dot);
      assert s[1..][at - 1] == '@';
      true
    else
      false
  }

  /** Index of the first `c` in `s`, if any. */
  function IndexOf(s: string, c: char): (r: Option<nat>)
    ensures r.None? <==> c !in s
    ensures r.Some? ==> r.value < |s| && s[r.value] == c && c !in s[..r.value]
  {
    if |s| == 0 then None
    else if s[0] == c then Some(0)
    else
      match IndexOf(s[1..], c)
      case None => None
      case Some(k) =>
        assert s[..k + 1] == [s[0]] + s[1..][..k];
        Some(k + 1)
  }

  /** The domain part has a '.' that is neither its first nor its last character. */
  predicate HasInnerDot(d: string) {
    |d| >= 3 && '.' in d[1..|d| - 1]
  }

  /** The scan `isValidEmail` amounts to: no whitespace anywhere, exactly one '@',
      something before it, and after it a '.' that is neither the first nor the last
      character. */
  predicate ScansAsEmail(s: string) {
    && (forall i :: 0 <= i < |s| ==> !IsSpace(s[i]))
    && match IndexOf(s, '@')
       case None => false
       case Some(at) => at > 0 && '@' !in s[at + 1..] && HasInnerDot(s[at + 1..])
  }

  /** The scan accepts exactly the strings the regular expression matches. */
  lemma ScanIffPattern(s: string)
    ensures ScansAsEmail(s) <==> EmailPattern(s)
  {
    if ScansAsEmail(s) {
      var at := IndexOf(s, '@').value;
      var d := s[at + 1..];
      var k :| 0 <= k < |d[1..|d| - 1]| && d[1..|d| - 1][k] == '.';
      var dot := at + 2 + k;
      assert d[1..|d| - 1][k] == d[k + 1] == s[dot];
      assert forall i :: 0 <= i < at ==> s[..at][i] == s[i] && s[i] in s[..at];
      assert SplitsAsEmail(s, at, dot);
    }
    if EmailPattern(s) {
      var at, dot :| SplitsAsEmail(s, at, dot);
      forall i | 0 <= i < |s|
        ensures !IsSpace(s[i])
      {
        if i < at {
          assert s[..at][i] == s[i];
        } else if at < i < dot {
          assert s[at + 1..dot][i - at - 1] == s[i];
        } else if dot < i {
          assert s[dot + 1..][i - dot - 1] == s[i];
        }
      }
      assert '@' !in s[..at] by {
        forall i | 0 <= i < at
          ensures s[..at][i] != '@'
        {
        }
      }
      var found := IndexOf(s, '@');
      assert found == Some(at) by {
        assert s[at] == '@';
      }
      var d := s[at + 1..];
      assert '@' !in d by {
        forall j | 0 <= j < |d|
          ensures d[j] != '@'
        {
          var i := at + 1 + j;
          if i < dot {
            assert s[at + 1..dot][j] == s[i];
          } else if dot < i {
            assert s[dot + 1..][i - dot - 1] == s[i];
          }
        }
      }
      assert d[1..|d| - 1][dot - at - 2] == '.';
    }
  }

  /** `isValidEmail`, the check both screens apply: a string is accepted exactly when
      the regular expression matches it. */
  function IsValidEmail(s: string): (b: bool)
    ensures b <==> EmailPattern(s)
  {
    ScanIffPattern(s);
    ScansAsEmail(s)
  }

  /** The rule is loose in the domain part: any '.' past its first character
      separates, so the domain may start or end with a dot. */
  lemma LooseDomainDots()
    ensures IsValidEmail("a@..c")
    ensures IsValidEmail("a@b.c.")
  {
    var s := "a@..c";
    assert AllAddressChars(s[..1]) && AllAddressChars(s[2..3]) && AllAddressChars(s[4..]);
    assert SplitsAsEmail(s, 1, 3);
    var t := "a@b.c.";
    assert AllAddressChars(t[..1]) && AllAddressChars(t[2..3]) && AllAddressChars(t[4..]);
    assert SplitsAsEmail(t, 1, 3);
  }

  /** A domain without a dot is refused. */
  lemma DomainNeedsDot()
    ensures !IsValidEmail("ab@cde")
  {
    var s := "ab@cde";
    assert IndexOf(s, '@') == Some(2);
    assert s[3..] == "cde";
    assert "cde"[1..2] == "d";
  }

  /** A second '@' is refused. */
  lemma SecondAtRefused()
    ensures !IsValidEmail("a@b@c.d")
  {
  }
}
