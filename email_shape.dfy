/** The address-shape test used by the input validator
    (`InputValidator.isValidEmail`, src/main.ts:59-62).

    The source tests the regular expression `^[^\s@]+@[^\s@]+\.[^\s@]+$`.
    `MatchesEmailRegex` states what that expression accepts; `IsValidEmail`
    is the plain string predicate the model computes, and
    `IsValidEmailMatchesRegex` proves the two agree on every string. */
module EmailShape {

  /** The ECMAScript `\s` class: the WhiteSpace and LineTerminator code points
      (TAB, LF, VT, FF, CR, SPACE, NBSP, the other space separators of
      category Zs, LINE SEPARATOR, PARAGRAPH SEPARATOR and the BOM). */
  predicate IsJsWhitespace(c: char) {
    var n := c as int;
    n == 0x09 || n == 0x0A || n == 0x0B || n == 0x0C || n == 0x0D || n == 0x20 ||
    n == 0xA0 || n == 0x1680 || (0x2000 <= n <= 0x200A) ||
    n == 0x2028 || n == 0x2029 || n == 0x202F || n == 0x205F || n == 0x3000 || n == 0xFEFF
  }

  /** The character class `[^\s@]`. */
  predicate IsAddressChar(c: char) {
    !IsJsWhitespace(c) && c != '@'
  }

  /** The repetition `[^\s@]+`: a non-empty run of address characters. */
  predicate IsRun(s: string) {
    |s| > 0 && forall k :: 0 <= k < |s| ==> IsAddressChar(s[k])
  }

  /** The anchored expression matches `s` with its `@` at index `i` and the
      matched `.` at index `j`: run, `@`, run, `.`, run, and nothing else. */
  ghost predicate SplitsAt(s: string, i: int, j: int) {
    && 0 < i && i + 1 < j && j + 1 < |s|
    && IsRun(s[..i]) && s[i] == '@'
    && IsRun(s[i + 1..j]) && s[j] == '.'
    && IsRun(s[j + 1..])
  }

  /** `/^[^\s@]+@[^\s@]+\.[^\s@]+$/.test(s)`. */
  ghost predicate MatchesEmailRegex(s: string)
    ensures MatchesEmailRegex(s) ==> 5 <= |s| && '@' in s
  {
    exists i, j :: SplitsAt(s, i, j)
  }

  /** Number of occurrences of `c` in `s`. */
  function Count(s: string, c: char): (n: nat)
    ensures n <= |s|
  {
    if s == [] then 0 else (if s[0] == c then 1 else 0) + Count(s[1..], c)
  }

  /** Index of the first occurrence of `c` in `s`, or `|s|` when there is none. */
  function IndexOf(s: string, c: char): (k: nat)
    ensures k <= |s|
    ensures k < |s| ==> s[k] == c
    ensures forall m :: 0 <= m < k ==> s[m] != c
    ensures k == |s| <==> c !in s
  {
    if s == [] then 0 else if s[0] == c then 0 else 1 + IndexOf(s[1..], c)
  }

  predicate HasNoWhitespace(s: string) {
    forall k :: 0 <= k < |s| ==> !IsJsWhitespace(s[k])
  }

  /** `d` holds a `.` with at least one character on each side of it. */
  predicate HasInnerDot(d: string) {
    exists k :: 0 < k < |d| - 1 && d[k] == '.'
  }

  /** The address shape as a plain string predicate: no whitespace, exactly one
      `@`, a non-empty part before it, and a `.` inside the part after it. */
  predicate IsValidEmail(s: string)
    ensures IsValidEmail(s) ==> 5 <= |s| && '@' in s && s[0] != '@'
  {
    && HasNoWhitespace(s)
    && Count(s, '@') == 1
    && var at := IndexOf(s, '@');
       0 < at < |s| && HasInnerDot(s[at + 1..])
  }

  lemma {:induction false} CountAppend(a: string, b: string, c: char)
    ensures Count(a + b, c) == Count(a, c) + Count(b, c)
  {
    if a != [] {
      assert (a + b)[1..] == a[1..] + b;
      CountAppend(a[1..], b, c);
    } else {
      assert a + b == b;
    }
  }

  lemma {:induction false} CountZero(s: string, c: char)
    ensures Count(s, c) == 0 <==> forall k :: 0 <= k < |s| ==> s[k] != c
  {
    if s != [] {
      CountZero(s[1..], c);
      if Count(s, c) == 0 {
        forall k | 0 <= k < |s| ensures s[k] != c {
          if k > 0 { assert s[k] == s[1..][k - 1]; }
        }
      }
    }
  }

  /** When `c` occurs exactly once, every other position holds something else. */
  lemma CountOneIsUnique(s: string, c: char)
    requires Count(s, c) == 1
    ensures IndexOf(s, c) < |s|
    ensures forall k :: 0 <= k < |s| && k != IndexOf(s, c) ==> s[k] != c
  {
    var i := IndexOf(s, c);
    if i == |s| {
      CountZero(s, c);
    } else {
      assert s == s[..i] + [s[i]] + s[i + 1..];
      CountAppend(s[..i] + [s[i]], s[i + 1..], c);
      CountAppend(s[..i], [s[i]], c);
      CountZero(s[..i], c);
      CountZero(s[i + 1..], c);
      forall k | 0 <= k < |s| && k != i ensures s[k] != c {
        if k > i { assert s[k] == s[i + 1..][k - i - 1]; }
      }
    }
  }

  lemma RegexImpliesPlain(s: string, i: int, j: int)
    requires SplitsAt(s, i, j)
    ensures IsValidEmail(s)
  {
    var a, b := s[..i], s[i + 1..];
    assert s == a + [s[i]] + b;
    forall k | 0 <= k < |s| ensures !IsJsWhitespace(s[k]) && (k != i ==> s[k] != '@') {
      if k < i {
        assert s[k] == s[..i][k];
      } else if i < k < j {
        assert s[k] == s[i + 1..j][k - i - 1];
      } else if k > j {
        assert s[k] == s[j + 1..][k - j - 1];
      }
    }
    CountZero(a, '@');
    CountZero(b, '@');
    CountAppend(a + [s[i]], b, '@');
    CountAppend(a, [s[i]], '@');
    assert IndexOf(s, '@') == i;
    var d := s[i + 1..];
    assert d[j - i - 1] == '.';
  }

  lemma PlainImpliesRegex(s: string)
    requires IsValidEmail(s)
    ensures MatchesEmailRegex(s)
  {
    var i := IndexOf(s, '@');
    CountOneIsUnique(s, '@');
    var d := s[i + 1..];
    var k :| 0 < k < |d| - 1 && d[k] == '.';
    var j := i + 1 + k;
    assert s[j] == d[k];
    assert forall m :: 0 <= m < |s| && m != i ==> IsAddressChar(s[m]);
    assert SplitsAt(s, i, j);
  }

  /** The plain predicate accepts exactly the strings the regular expression accepts. */
  lemma IsValidEmailMatchesRegex(s: string)
    ensures IsValidEmail(s) <==> MatchesEmailRegex(s)
  {
    if IsValidEmail(s) {
      PlainImpliesRegex(s);
    }
    if MatchesEmailRegex(s) {
      var i, j :| SplitsAt(s, i, j);
      RegexImpliesPlain(s, i, j);
    }
  }

  /** The empty string is never an address (the regex needs at least five characters). */
  lemma EmptyIsNotEmail()
    ensures !IsValidEmail("")
  {
  }
}
