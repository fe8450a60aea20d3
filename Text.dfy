/**
 * The Kotlin `Char` and `String` operations the list view-model relies on, restricted
 * to ASCII: `isDigit`, `isWhitespace`, `isLowerCase`/`titlecase`, `trim`,
 * `contains(ignoreCase = true)`, `takeLastWhile`, `toInt` and `Int.toString`.
 */
module Text {
  import opened Int32

  predicate IsDigit(c: char) {
    '0' <= c <= '9'
  }

  predicate AllDigits(s: string) {
    forall i :: 0 <= i < |s| ==> IsDigit(s[i])
  }

  /** Kotlin `Char.isWhitespace()` on ASCII: TAB..CR, the four separators FS..US, and SPACE. */
  predicate IsWhitespace(c: char) {
    9 <= c as int <= 13 || 28 <= c as int <= 32
  }

  predicate IsLowerCase(c: char) {
    'a' <= c <= 'z'
  }

  predicate IsUpperCase(c: char) {
    'A' <= c <= 'Z'
  }

  /** Upper-casing (and, on ASCII, title-casing) of one character. */
  function UpperCase(c: char): (r: char)
    ensures IsLowerCase(c) ==> IsUpperCase(r) && r as int == c as int - 32
    ensures !IsLowerCase(c) ==> r == c
    ensures !IsLowerCase(r)
  {
    if IsLowerCase(c) then (c as int - 32) as char else c
  }

  /** Kotlin's `Char.equals(other, ignoreCase = true)` on ASCII. */
  predicate SameIgnoringCase(a: char, b: char) {
    UpperCase(a) == UpperCase(b)
  }

  // ---------------------------------------------------------------- trim

  /** Where the kept part starts: the first non-whitespace position at or after i. */
  function TrimFrom(s: string, i: nat): (a: nat)
    requires i <= |s|
    decreases |s| - i
    ensures i <= a <= |s|
    ensures forall k :: i <= k < a ==> IsWhitespace(s[k])
    ensures a < |s| ==> !IsWhitespace(s[a])
  {
    if i < |s| && IsWhitespace(s[i]) then TrimFrom(s, i + 1) else i
  }

  /** Where the kept part ends: j with the whitespace before it (down to a) given back. */
  function TrimTo(s: string, a: nat, j: nat): (b: nat)
    requires a <= j <= |s|
    ensures a <= b <= j
    ensures forall k :: b <= k < j ==> IsWhitespace(s[k])
    ensures b > a ==> !IsWhitespace(s[b - 1])
  {
    if j > a && IsWhitespace(s[j - 1]) then TrimTo(s, a, j - 1) else j
  }

  function TrimStartIndex(s: string): (a: nat)
    ensures a <= |s|
  {
    TrimFrom(s, 0)
  }

  function TrimEndIndex(s: string): (b: nat)
    ensures TrimStartIndex(s) <= b <= |s|
  {
    TrimTo(s, TrimStartIndex(s), |s|)
  }

  /**
   * Kotlin `String.trim()`: what is left once the whitespace at both ends is gone; it starts
   * and ends with a non-whitespace character, everything cut off is whitespace, and it is
   * empty exactly when s is all whitespace.
   */
  function Trim(s: string): (r: string)
    ensures r == s[TrimStartIndex(s)..TrimEndIndex(s)]
    ensures forall k :: 0 <= k < TrimStartIndex(s) ==> IsWhitespace(s[k])
    ensures forall k :: TrimEndIndex(s) <= k < |s| ==> IsWhitespace(s[k])
    ensures |r| > 0 ==> !IsWhitespace(r[0]) && !IsWhitespace(r[|r| - 1])
    ensures r == "" <==> forall k :: 0 <= k < |s| ==> IsWhitespace(s[k])
  {
    var a, b := TrimStartIndex(s), TrimEndIndex(s);
    assert a < |s| ==> a < b;
    s[a..b]
  }

  // ---------------------------------------------------- contains (ignoring case)

  /** q occurs in s at position i, character by character ignoring case. */
  predicate RegionMatchesIgnoreCase(s: string, i: nat, q: string)
    requires i + |q| <= |s|
  {
    forall k :: 0 <= k < |q| ==> SameIgnoringCase(s[i + k], q[k])
  }

  /**
   * Kotlin's `indexOf(q, from, ignoreCase = true)`: the first position at or after `from` where
   * q occurs ignoring case, or -1.
   */
  function IndexOfIgnoreCase(s: string, q: string, from: nat): (r: int)
    requires from <= |s|
    decreases |s| - from
    ensures r == -1 || (from <= r && r + |q| <= |s| && RegionMatchesIgnoreCase(s, r, q))
    ensures r != -1 ==> forall i :: from <= i < r ==> !RegionMatchesIgnoreCase(s, i, q)
    ensures r == -1 ==> forall i :: from <= i && i + |q| <= |s| ==> !RegionMatchesIgnoreCase(s, i, q)
  {
    if from + |q| > |s| then -1
    else if RegionMatchesIgnoreCase(s, from, q) then from
    else IndexOfIgnoreCase(s, q, from + 1)
  }

  /** Kotlin `s.contains(q, ignoreCase = true)`: some position of s matches q ignoring case. */
  predicate ContainsIgnoreCase(s: string, q: string)
    ensures ContainsIgnoreCase(s, q) <==>
            exists i: nat :: i + |q| <= |s| && RegionMatchesIgnoreCase(s, i, q)
  {
    var i := IndexOfIgnoreCase(s, q, 0);
    assert i >= 0 ==> RegionMatchesIgnoreCase(s, i, q);
    i >= 0
  }

  /** Searching ignoring case cannot tell apart two strings that differ only in case. */
  lemma {:induction false} IndexOfIgnoresCaseOfText(s: string, t: string, q: string, from: nat)
    requires |s| == |t| && from <= |s|
    requires forall i :: 0 <= i < |s| ==> SameIgnoringCase(s[i], t[i])
    decreases |s| - from
    ensures IndexOfIgnoreCase(s, q, from) == IndexOfIgnoreCase(t, q, from)
  {
    if from + |q| <= |s| {
      assert RegionMatchesIgnoreCase(s, from, q) == RegionMatchesIgnoreCase(t, from, q);
      if !RegionMatchesIgnoreCase(s, from, q) {
        IndexOfIgnoresCaseOfText(s, t, q, from + 1);
      }
    }
  }

  // ------------------------------------------------------------ takeLastWhile

  /** Kotlin `s.takeLastWhile { it.isDigit() }`: the longest run of digits that ends s. */
  function TakeLastDigits(s: string): (r: string)
    ensures |r| <= |s| && r == s[|s| - |r|..]
    ensures AllDigits(r)
    ensures |r| < |s| ==> !IsDigit(s[|s| - |r| - 1])
  {
    if |s| == 0 || !IsDigit(s[|s| - 1]) then ""
    else TakeLastDigits(s[..|s| - 1]) + [s[|s| - 1]]
  }

  // -------------------------------------------------------- numbers <-> strings

  function DigitValue(c: char): (d: nat)
    requires IsDigit(c)
    ensures d < 10
  {
    c as int - '0' as int
  }

  function DigitChar(d: nat): (c: char)
    requires d < 10
    ensures IsDigit(c) && DigitValue(c) == d
  {
    ('0' as int + d) as char
  }

  /** The value of a string of decimal digits (leading zeros allowed, as `toInt` allows them). */
  function ParseDecimal(s: string): (n: nat)
    requires AllDigits(s)
    ensures n == 0 <==> forall k :: 0 <= k < |s| ==> s[k] == '0'
  {
    if |s| == 0 then 0 else 10 * ParseDecimal(s[..|s| - 1]) + DigitValue(s[|s| - 1])
  }

  /** Kotlin `String.toInt()` succeeds on a digit string exactly when it is non-empty and fits an Int. */
  predicate ToIntSucceeds(s: string) {
    |s| > 0 && AllDigits(s) && ParseDecimal(s) <= INT_MAX
  }

  /** A digit string with no superfluous leading zero: what `toString` produces. */
  predicate Canonical(s: string) {
    |s| > 0 && AllDigits(s) && (|s| > 1 ==> s[0] != '0')
  }

  /** Decimal digits of a non-negative number, without leading zeros. */
  function NatToString(n: nat): (s: string)
    ensures Canonical(s)
    ensures |s| == 1 <==> n < 10
  {
    if n < 10 then [DigitChar(n)] else NatToString(n / 10) + [DigitChar(n % 10)]
  }

  /**
   * Kotlin `Int.toString()`: a non-negative number prints as canonical digits that read back as
   * the number; a negative one prints as "-" and the digits of its magnitude.
   */
  function IntToString(n: int): (s: string)
    ensures n >= 0 ==> Canonical(s) && ParseDecimal(s) == n
    ensures n < 0 ==> |s| > 1 && s[0] == '-' && Canonical(s[1..]) && ParseDecimal(s[1..]) == -n
  {
    if n < 0 then
      ParseNatToString(-n);
      var digits := NatToString(-n);
      assert ("-" + digits)[1..] == digits;
      "-" + digits
    else
      ParseNatToString(n);
      NatToString(n)
  }

  lemma {:induction false} ParseNatToString(n: nat)
    ensures ParseDecimal(NatToString(n)) == n
  {
    if n >= 10 {
      ParseNatToString(n / 10);
      var s := NatToString(n);
      assert s[..|s| - 1] == NatToString(n / 10);
    }
  }

  lemma {:induction false} NatToStringOfParse(s: string)
    requires Canonical(s)
    ensures NatToString(ParseDecimal(s)) == s
  {
    var init := s[..|s| - 1];
    var last := s[|s| - 1];
    if |s| > 1 {
      assert init[0] == s[0];
      NatToStringOfParse(init);
      ParseIsAtLeast(init);
      var n := ParseDecimal(s);
      assert n / 10 == ParseDecimal(init) && n % 10 == DigitValue(last);
      assert DigitChar(DigitValue(last)) == last;
    }
  }

  /** A canonical digit string of two or more digits denotes at least 10. */
  lemma {:induction false} ParseIsAtLeast(s: string)
    requires Canonical(s)
    ensures |s| > 1 ==> ParseDecimal(s) >= 10
    ensures |s| == 1 ==> ParseDecimal(s) < 10
    ensures ParseDecimal(s) > 0 || s == "0"
  {
    if |s| > 1 {
      var init := s[..|s| - 1];
      assert init[0] == s[0];
      ParseIsAtLeast(init);
    } else {
      assert s[..0] == "";
    }
  }

  /** `toString` of a number read from digits gives back those digits exactly when they are canonical. */
  lemma IntToStringOfParse(s: string)
    requires |s| > 0 && AllDigits(s)
    ensures IntToString(ParseDecimal(s)) == s <==> Canonical(s)
  {
    if Canonical(s) {
      NatToStringOfParse(s);
    }
  }
}
