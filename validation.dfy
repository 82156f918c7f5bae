/**
 * The registration form's two validators. The source writes them as
 * regular expressions; here each is a scanning function proved equal to a
 * declarative statement of the pattern.
 *
 *   email:    ^[a-zA-Z0-9._-]+@[a-zA-Z0-9.-]+\.[a-zA-Z]{2,4}$
 *   password: ^(?=.*[a-z])(?=.*[A-Z])(?=.*\d).{6,}$
 */
module Validation {

  predicate IsLowerLetter(c: char) { 'a' <= c <= 'z' }
  predicate IsUpperLetter(c: char) { 'A' <= c <= 'Z' }
  predicate IsLetter(c: char) { IsLowerLetter(c) || IsUpperLetter(c) }
  predicate IsDigit(c: char) { '0' <= c <= '9' }

  /** `[a-zA-Z0-9._-]` */
  predicate IsLocalChar(c: char) { IsLetter(c) || IsDigit(c) || c == '.' || c == '_' || c == '-' }

  /** `[a-zA-Z0-9.-]` */
  predicate IsDomainChar(c: char) { IsLetter(c) || IsDigit(c) || c == '.' || c == '-' }

  /** The characters a regular-expression `.` does not match. */
  predicate IsLineTerminator(c: char)
  {
    c == '\n' || c == '\r' || c == '\U{2028}' || c == '\U{2029}'
  }

  /** `[a-zA-Z0-9._-]+` */
  predicate IsLocalPart(s: string)
  {
    |s| > 0 && forall k :: 0 <= k < |s| ==> IsLocalChar(s[k])
  }

  /** `[a-zA-Z0-9.-]+` */
  predicate IsDomainPart(s: string)
  {
    |s| > 0 && forall k :: 0 <= k < |s| ==> IsDomainChar(s[k])
  }

  /** `[a-zA-Z]{2,4}` */
  predicate IsTopLevel(s: string)
  {
    2 <= |s| <= 4 && forall k :: 0 <= k < |s| ==> IsLetter(s[k])
  }

  /** `s` splits as local part, '@' at `at`, domain, '.' at `dot`, top-level part. */
  ghost predicate EmailSplit(s: string, at: int, dot: int)
  {
    0 <= at < dot < |s| && s[at] == '@' && s[dot] == '.' &&
    IsLocalPart(s[..at]) && IsDomainPart(s[at + 1..dot]) && IsTopLevel(s[dot + 1..])
  }

  /** The whole of `s` matches the email pattern. */
  ghost predicate EmailPattern(s: string)
  {
    exists at, dot :: EmailSplit(s, at, dot)
  }

  /** The first index of `c` in `s`, or -1. */
  function IndexOf(s: string, c: char): (r: int)
    ensures -1 <= r < |s|
    ensures r == -1 ==> c !in s
    ensures r != -1 ==> s[r] == c && c !in s[..r]
  {
    if s == [] then -1
    else if s[0] == c then 0
    else
      var r := IndexOf(s[1..], c);
      if r == -1 then -1
      else
        assert s[..r + 1] == [s[0]] + s[1..][..r];
        r + 1
  }

  /** The last index of `c` in `s`, or -1. */
  function LastIndexOf(s: string, c: char): (r: int)
    ensures -1 <= r < |s|
    ensures r == -1 ==> c !in s
    ensures r != -1 ==> s[r] == c && c !in s[r + 1..]
  {
    if s == [] then -1
    else if s[|s| - 1] == c then |s| - 1
    else
      var r := LastIndexOf(s[..|s| - 1], c);
      if r != -1 then
        assert s[r + 1..] == s[..|s| - 1][r + 1..] + [s[|s| - 1]];
        r
      else
        assert s == s[..|s| - 1] + [s[|s| - 1]];
        r
  }

  /**
   * `validateEmail`: the local part runs up to the first '@' (the part may
   * not contain one) and the top-level part follows the last '.' (it may not
   * contain one either).
   */
  function ValidEmail(s: string): (r: bool)
    ensures r ==> EmailPattern(s)
  {
    var at := IndexOf(s, '@');
    if at == -1 then false
    else
      var rest := s[at + 1..];
      var dot := LastIndexOf(rest, '.');
      if dot != -1 && IsLocalPart(s[..at]) && IsDomainPart(rest[..dot]) && IsTopLevel(rest[dot + 1..]) then
        assert rest[..dot] == s[at + 1..at + 1 + dot];
        assert rest[dot + 1..] == s[at + 1 + dot + 1..];
        assert EmailSplit(s, at, at + 1 + dot);
        true
      else
        false
  }

  /** Every string that matches the email pattern is accepted by `validateEmail`. */
  lemma ValidEmailComplete(s: string, at: int, dot: int)
    requires EmailSplit(s, at, dot)
    ensures ValidEmail(s)
  {
    var local := s[..at];
    assert '@' !in local by {
      forall k | 0 <= k < |local| ensures local[k] != '@' {
        assert IsLocalChar(local[k]);
      }
    }
    var rest := s[at + 1..];
    var d := dot - at - 1;
    var top := rest[d + 1..];
    assert top == s[dot + 1..];
    assert '.' !in top by {
      forall k | 0 <= k < |top| ensures top[k] != '.' {
        assert IsLetter(top[k]);
      }
    }
    assert rest[..d] == s[at + 1..dot];
  }

  /** `validateEmail` accepts exactly the strings that match the email pattern. */
  lemma ValidEmailMatchesPattern(s: string)
    ensures ValidEmail(s) <==> EmailPattern(s)
  {
    if EmailPattern(s) {
      var at, dot :| EmailSplit(s, at, dot);
      ValidEmailComplete(s, at, dot);
    }
  }

  /** The number of UTF-16 code units of `c`: two for a character outside the Basic Multilingual Plane. */
  function CodeUnits(c: char): nat
  {
    if c as int >= 0x1_0000 then 2 else 1
  }

  /**
   * The length JavaScript reports for `s`, and the count a regular
   * expression without the `u` flag matches `.` against: UTF-16 code units.
   */
  function Utf16Length(s: string): (n: nat)
    ensures |s| <= n <= 2 * |s|
    ensures n == |s| <==> forall k :: 0 <= k < |s| ==> s[k] as int < 0x1_0000
  {
    if s == [] then 0
    else
      var n := CodeUnits(s[0]) + Utf16Length(s[1..]);
      assert forall k :: 1 <= k < |s| ==> s[k] == s[1..][k - 1];
      n
  }

  /** The declarative password rule the lookaheads express; `.{6,}` counts code units. */
  ghost predicate PasswordPolicy(s: string)
  {
    Utf16Length(s) >= 6 &&
    (exists k :: 0 <= k < |s| && IsLowerLetter(s[k])) &&
    (exists k :: 0 <= k < |s| && IsUpperLetter(s[k])) &&
    (exists k :: 0 <= k < |s| && IsDigit(s[k])) &&
    (forall k :: 0 <= k < |s| ==> !IsLineTerminator(s[k]))
  }

  /** What a single pass over a password has seen. */
  datatype Seen = Seen(lower: bool, upper: bool, digit: bool, terminator: bool)

  function Scan(s: string): (f: Seen)
    ensures f.lower <==> exists k :: 0 <= k < |s| && IsLowerLetter(s[k])
    ensures f.upper <==> exists k :: 0 <= k < |s| && IsUpperLetter(s[k])
    ensures f.digit <==> exists k :: 0 <= k < |s| && IsDigit(s[k])
    ensures f.terminator <==> exists k :: 0 <= k < |s| && IsLineTerminator(s[k])
  {
    if s == [] then Seen(false, false, false, false)
    else
      var f := Scan(s[1..]);
      assert forall k :: 1 <= k < |s| ==> s[k] == s[1..][k - 1];
      assert forall k :: 0 <= k < |s| - 1 ==> s[1..][k] == s[k + 1];
      Seen(f.lower || IsLowerLetter(s[0]), f.upper || IsUpperLetter(s[0]),
           f.digit || IsDigit(s[0]), f.terminator || IsLineTerminator(s[0]))
  }

  /** `validatePassword`: one pass, then the length in code units and the four flags. */
  function ValidPassword(s: string): (b: bool)
    ensures b <==> PasswordPolicy(s)
  {
    var f := Scan(s);
    Utf16Length(s) >= 6 && f.lower && f.upper && f.digit && !f.terminator
  }

  /**
   * Five characters can make a valid password: two of them outside the Basic
   * Multilingual Plane bring the length in code units to seven.
   */
  lemma AstralCharactersCountTwice()
    ensures |"Aa1\U{1F600}\U{1F600}"| == 5
    ensures ValidPassword("Aa1\U{1F600}\U{1F600}")
  {
    var s := "Aa1\U{1F600}\U{1F600}";
    assert Utf16Length(s[4..]) == 2 by {
      assert s[4..][1..] == [];
    }
    assert Utf16Length(s[3..]) == 4 by {
      assert s[3..][1..] == s[4..];
    }
    assert Utf16Length(s[2..]) == 5 by {
      assert s[2..][1..] == s[3..];
    }
    assert Utf16Length(s[1..]) == 6 by {
      assert s[1..][1..] == s[2..];
    }
    assert Utf16Length(s) == 7;
    assert IsUpperLetter(s[0]) && IsLowerLetter(s[1]) && IsDigit(s[2]);
    assert forall k :: 0 <= k < |s| ==> !IsLineTerminator(s[k]);
    assert PasswordPolicy(s);
  }
}
