/** Character and string helpers shared by the Python and JavaScript code:
    whitespace trimming (`str.strip()`, `String.prototype.trim()`), ASCII case
    mapping (`str.lower()`, `str.upper()`), `sep.join(xs)` and decimal
    formatting of integers (`f"{n}"`, template literals). */
module Text {

  /** The whitespace code points the model recognises: the ASCII ones, the
      no-break space and the ideographic space used in Japanese text. */
  predicate IsSpace(c: char) {
    c == ' ' || c == '\t' || c == '\n' || c == '\r' || c == '\U{000B}' || c == '\U{000C}'
    || c == '\U{00A0}' || c == '\U{3000}'
  }

  /** The first position at or after `j` that does not hold whitespace. */
  function SpaceEnd(s: string, j: nat): (k: nat)
    requires j <= |s|
    ensures j <= k <= |s|
    ensures forall x :: j <= x < k ==> IsSpace(s[x])
    ensures k == |s| || !IsSpace(s[k])
    decreases |s| - j
  {
    if j < |s| && IsSpace(s[j]) then SpaceEnd(s, j + 1) else j
  }

  /** The position after the last character before `j` that is not
      whitespace (0 when there is none). */
  function SpaceStart(s: string, j: nat): (k: nat)
    requires j <= |s|
    ensures k <= j
    ensures forall x :: k <= x < j ==> IsSpace(s[x])
    ensures k == 0 || !IsSpace(s[k - 1])
  {
    if j > 0 && IsSpace(s[j - 1]) then SpaceStart(s, j - 1) else j
  }

  /** `r` is the piece of `s` starting at `at`, and everything of `s` around
      it is whitespace. */
  predicate TrimmedAt(s: string, r: string, at: nat) {
    && ContainsAt(s, r, at)
    && (forall k :: 0 <= k < at ==> IsSpace(s[k]))
    && (forall k :: at + |r| <= k < |s| ==> IsSpace(s[k]))
  }

  /** Python's `s.strip()` and JavaScript's `s.trim()`: whitespace removed at
      both ends and nowhere else. */
  function Trim(s: string): (r: string)
    ensures |r| <= |s|
    ensures r == [] || (!IsSpace(r[0]) && !IsSpace(r[|r| - 1]))
    ensures exists at: nat :: TrimmedAt(s, r, at)
  {
    var a := SpaceEnd(s, 0);
    if a == |s| then
      assert TrimmedAt(s, [], a);
      []
    else
      var b := SpaceStart(s, |s|);
      assert a < b;
      assert TrimmedAt(s, s[a..b], a);
      s[a..b]
  }

  /** A string without space at either end is its own trim. */
  lemma TrimOfTrimmed(s: string)
    requires s == [] || (!IsSpace(s[0]) && !IsSpace(s[|s| - 1]))
    ensures Trim(s) == s
  {
    if s != [] {
      assert SpaceEnd(s, 0) == 0;
      assert SpaceStart(s, |s|) == |s|;
      assert s[0..|s|] == s;
    }
  }

  function LowerChar(c: char): char {
    if 'A' <= c <= 'Z' then (c as int + 32) as char else c
  }

  function UpperChar(c: char): char {
    if 'a' <= c <= 'z' then (c as int - 32) as char else c
  }

  /** `s.lower()` restricted to the ASCII letters. */
  function Lower(s: string): (r: string)
    ensures |r| == |s| && forall k :: 0 <= k < |s| ==> r[k] == LowerChar(s[k])
  {
    if s == [] then [] else [LowerChar(s[0])] + Lower(s[1..])
  }

  /** A string without capital ASCII letters is its own lower-case form. */
  lemma LowerOfLowercase(s: string)
    requires forall k :: 0 <= k < |s| ==> !('A' <= s[k] <= 'Z')
    ensures Lower(s) == s
  {
  }

  /** `s.upper()` restricted to the ASCII letters. */
  function Upper(s: string): (r: string)
    ensures |r| == |s| && forall k :: 0 <= k < |s| ==> r[k] == UpperChar(s[k])
  {
    if s == [] then [] else [UpperChar(s[0])] + Upper(s[1..])
  }

  /** A string without small ASCII letters is its own upper-case form. */
  lemma UpperOfUppercase(s: string)
    requires forall k :: 0 <= k < |s| ==> !('a' <= s[k] <= 'z')
    ensures Upper(s) == s
  {
  }

  /** `sep.join(xs)`. */
  function Join(xs: seq<string>, sep: string): string {
    if xs == [] then "" else if |xs| == 1 then xs[0] else xs[0] + sep + Join(xs[1..], sep)
  }

  /** `needle` occurs in `s` as a contiguous piece. */
  predicate ContainsAt(s: string, needle: string, at: nat) {
    at + |needle| <= |s| && s[at..at + |needle|] == needle
  }

  /** The middle piece of a concatenation occurs in it right after the first. */
  lemma ContainsInfix(a: string, b: string, c: string)
    ensures ContainsAt(a + b + c, b, |a|)
  {
    assert (a + b + c)[|a|..|a| + |b|] == b;
  }

  /** An occurrence in a string is one in any extension of it. */
  lemma ContainsLeft(a: string, b: string, needle: string, at: nat)
    requires ContainsAt(a, needle, at)
    ensures ContainsAt(a + b, needle, at)
  {
    assert (a + b)[at..at + |needle|] == a[at..at + |needle|];
  }

  /** An occurrence in `b` is one in `a + b`, shifted by `|a|`. */
  lemma ContainsRight(a: string, b: string, needle: string, at: nat)
    requires ContainsAt(b, needle, at)
    ensures ContainsAt(a + b, needle, |a| + at)
  {
    assert (a + b)[|a| + at..|a| + at + |needle|] == b[at..at + |needle|];
  }

  /** An occurrence that ends before `m` survives cutting the string at `m`. */
  lemma ContainsCut(s: string, m: nat, needle: string, at: nat)
    requires ContainsAt(s, needle, at) && at + |needle| <= m <= |s|
    ensures ContainsAt(s[..m], needle, at)
  {
    assert s[..m][at..at + |needle|] == s[at..at + |needle|];
  }

  /** Every piece of a join occurs in the joined string, and the join is as
      long as its pieces plus one separator between each neighbouring pair. */
  lemma {:induction false} JoinContainsEach(xs: seq<string>, sep: string, k: nat)
    requires k < |xs|
    ensures exists at: nat :: ContainsAt(Join(xs, sep), xs[k], at)
  {
    if |xs| == 1 {
      assert ContainsAt(Join(xs, sep), xs[k], 0);
    } else if k == 0 {
      assert Join(xs, sep) == xs[0] + (sep + Join(xs[1..], sep));
      assert ContainsAt(Join(xs, sep), xs[k], 0);
    } else {
      JoinContainsEach(xs[1..], sep, k - 1);
      var at: nat :| ContainsAt(Join(xs[1..], sep), xs[1..][k - 1], at);
      var off := |xs[0]| + |sep|;
      assert Join(xs, sep) == (xs[0] + sep) + Join(xs[1..], sep);
      assert Join(xs, sep)[off + at..off + at + |xs[k]|] == Join(xs[1..], sep)[at..at + |xs[k]|];
      assert ContainsAt(Join(xs, sep), xs[k], off + at);
    }
  }

  /** Decimal digits of a natural number, as `str(n)` writes them. */
  function NatToString(n: nat): (r: string)
    ensures |r| >= 1
    ensures forall k :: 0 <= k < |r| ==> '0' <= r[k] <= '9'
    decreases n
  {
    if n < 10 then [DigitChar(n)] else NatToString(n / 10) + [DigitChar(n % 10)]
  }

  function DigitChar(d: nat): (c: char)
    requires d < 10
    ensures '0' <= c <= '9'
  {
    (d + '0' as int) as char
  }

  /** `str(i)` for any integer: a minus sign before the digits of `-i`. */
  function IntToString(i: int): (r: string)
    ensures |r| >= 1
  {
    if i < 0 then "-" + NatToString(-i) else NatToString(i)
  }

  function DigitValue(c: char): nat
    requires '0' <= c <= '9'
  {
    c as int - '0' as int
  }

  /** Reads decimal digits back; the inverse of NatToString. */
  function ParseNat(s: string): nat
    requires forall k :: 0 <= k < |s| ==> '0' <= s[k] <= '9'
  {
    if s == [] then 0 else ParseNat(s[..|s| - 1]) * 10 + DigitValue(s[|s| - 1])
  }

  /** Decimal formatting loses nothing: the digits read back as the number,
      so distinct numbers give distinct strings. */
  lemma {:induction false} NatToStringRoundTrip(n: nat)
    ensures ParseNat(NatToString(n)) == n
    decreases n
  {
    if n >= 10 {
      NatToStringRoundTrip(n / 10);
      var s := NatToString(n);
      assert s[..|s| - 1] == NatToString(n / 10);
    }
  }

  lemma NatToStringInjective(m: nat, n: nat)
    requires m != n
    ensures NatToString(m) != NatToString(n)
  {
    NatToStringRoundTrip(m);
    NatToStringRoundTrip(n);
  }
}
