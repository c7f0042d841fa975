/**
 * The parts of java.lang.String and java.lang.Integer/Long that the modelled
 * parsers rely on: trimming, searching, literal replacement, ASCII case
 * mapping, joining, and decimal parsing and printing with Java's ranges.
 */
module JavaString {
  import opened Outcome

  type String = seq<char>

  const INT_MIN: int := -0x8000_0000
  const INT_MAX: int := 0x7fff_ffff
  const LONG_MIN: int := -0x8000_0000_0000_0000
  const LONG_MAX: int := 0x7fff_ffff_ffff_ffff

  /** Java int arithmetic: the result reduced to 32-bit two's complement. */
  function Wrap32(x: int): (r: int)
    ensures INT_MIN <= r <= INT_MAX
    ensures (r - x) % 0x1_0000_0000 == 0
    ensures INT_MIN <= x <= INT_MAX ==> r == x
  {
    (x - INT_MIN) % 0x1_0000_0000 + INT_MIN
  }

  /** Java long arithmetic: the result reduced to 64-bit two's complement. */
  function Wrap64(x: int): (r: int)
    ensures LONG_MIN <= r <= LONG_MAX
    ensures (r - x) % 0x1_0000_0000_0000_0000 == 0
    ensures LONG_MIN <= x <= LONG_MAX ==> r == x
  {
    (x - LONG_MIN) % 0x1_0000_0000_0000_0000 + LONG_MIN
  }

  predicate IsDigit(c: char) { '0' <= c <= '9' }

  predicate IsAsciiLetter(c: char) { 'a' <= c <= 'z' || 'A' <= c <= 'Z' }

  /** Regex `\w`. */
  predicate IsWordChar(c: char) { IsAsciiLetter(c) || IsDigit(c) || c == '_' }

  /** Regex `\s`: space, tab, newline, vertical tab, form feed, carriage return. */
  predicate IsSpace(c: char)
  {
    c == ' ' || c == '\t' || c == '\n' || c == '\U{000B}' || c == '\U{000C}' || c == '\r'
  }

  /** The characters regex `.` does not match. */
  predicate IsLineTerminator(c: char)
  {
    c == '\n' || c == '\r' || c == '\U{0085}' || c == '\U{2028}' || c == '\U{2029}'
  }

  predicate AllDigits(s: String) { forall i :: 0 <= i < |s| ==> IsDigit(s[i]) }

  // ---------------------------------------------------------------------
  // Trimming: String.trim removes every leading and trailing char <= ' '.
  // ---------------------------------------------------------------------

  function LeadingBlanks(s: String): (n: nat)
    ensures n <= |s|
    ensures forall k :: 0 <= k < n ==> s[k] <= ' '
    ensures n < |s| ==> s[n] > ' '
  {
    if |s| == 0 || s[0] > ' ' then 0 else 1 + LeadingBlanks(s[1..])
  }

  function TrailingBlanks(s: String): (n: nat)
    ensures n <= |s|
    ensures forall k :: |s| - n <= k < |s| ==> s[k] <= ' '
    ensures n < |s| ==> s[|s| - n - 1] > ' '
  {
    if |s| == 0 || s[|s| - 1] > ' ' then 0 else 1 + TrailingBlanks(s[..|s| - 1])
  }

  /** r is s with only characters <= ' ' removed from its two ends. */
  predicate StrippedFrom(s: String, r: String, i: nat, j: nat)
  {
    i <= j <= |s| && r == s[i..j] &&
    (forall k :: 0 <= k < i ==> s[k] <= ' ') &&
    (forall k :: j <= k < |s| ==> s[k] <= ' ')
  }

  /** String.trim. */
  function Trim(s: String): (r: String)
    ensures exists i, j :: StrippedFrom(s, r, i, j)
    ensures |r| > 0 ==> r[0] > ' ' && r[|r| - 1] > ' '
  {
    var i := LeadingBlanks(s);
    var t := s[i..];
    var n := TrailingBlanks(t);
    var j := |s| - n;
    assert StrippedFrom(s, s[i..j], i, j) by {
      forall k | j <= k < |s| ensures s[k] <= ' ' {
        assert s[k] == t[k - i];
      }
    }
    s[i..j]
  }

  lemma TrimIdempotent(s: String)
    ensures Trim(Trim(s)) == Trim(s)
  {
    var r := Trim(s);
    if |r| > 0 {
      assert LeadingBlanks(r) == 0;
      assert TrailingBlanks(r) == 0;
      assert r[0..|r|] == r;
    }
  }

  // ---------------------------------------------------------------------
  // Searching
  // ---------------------------------------------------------------------

  lemma ConcatAssoc(a: String, b: String, c: String)
    ensures a + b + c == a + (b + c)
  {
  }

  lemma SliceConcat(s: String, i: nat, j: nat)
    requires i <= j <= |s|
    ensures s[i..] == s[i..j] + s[j..]
  {
  }

  lemma SliceOfSlice(s: String, i: nat, j: nat, a: nat, b: nat)
    requires i <= j <= |s| && a <= b <= j - i
    ensures s[i..j][a..b] == s[i + a..i + b]
  {
    var x := s[i..j][a..b];
    var y := s[i + a..i + b];
    forall n | 0 <= n < |x| ensures x[n] == y[n] {
      assert x[n] == s[i..j][a + n];
    }
  }

  /** An occurrence inside a slice is an occurrence in the whole text. */
  lemma OccursInSlice(s: String, t: String, i: nat, j: nat, k: nat)
    requires i <= j <= |s| && OccursAt(s[i..j], t, k)
    ensures OccursAt(s, t, i + k)
  {
    SliceOfSlice(s, i, j, k, k + |t|);
  }

  predicate OccursAt(s: String, t: String, i: nat)
  {
    i + |t| <= |s| && s[i..i + |t|] == t
  }

  /** String.indexOf(t, from): the leftmost occurrence of t at or after from. */
  function IndexOfFrom(s: String, t: String, from: nat): (r: Option<nat>)
    decreases |s| - from
    ensures r.Some? ==> from <= r.value && OccursAt(s, t, r.value)
    ensures r.Some? ==> forall k :: from <= k < r.value ==> !OccursAt(s, t, k)
    ensures r.None? ==> forall k :: from <= k ==> !OccursAt(s, t, k)
  {
    if from + |t| > |s| then None
    else if OccursAt(s, t, from) then Some(from)
    else IndexOfFrom(s, t, from + 1)
  }

  predicate Contains(s: String, t: String)
  {
    IndexOfFrom(s, t, 0).Some?
  }

  lemma ContainsIff(s: String, t: String)
    ensures Contains(s, t) <==> exists k :: OccursAt(s, t, k)
  {
    if !Contains(s, t) {
      assert forall k :: 0 <= k ==> !OccursAt(s, t, k);
    }
  }

  predicate StartsWith(s: String, p: String)
  {
    |p| <= |s| && s[..|p|] == p
  }

  // ---------------------------------------------------------------------
  // Literal replacement: String.replace(CharSequence, CharSequence)
  // replaces every non-overlapping occurrence, scanning left to right.
  // ---------------------------------------------------------------------

  function Replace(s: String, t: String, r: String): String
    requires |t| > 0
    decreases |s|
  {
    match IndexOfFrom(s, t, 0)
    case None => s
    case Some(i) => s[..i] + r + Replace(s[i + |t|..], t, r)
  }

  lemma ReplaceAbsent(s: String, t: String, r: String)
    requires |t| > 0
    requires !Contains(s, t)
    ensures Replace(s, t, r) == s
  {
  }

  /** r before every character of s and once more at its end. */
  function InsertEverywhere(s: String, r: String): String
  {
    if |s| == 0 then r else r + [s[0]] + InsertEverywhere(s[1..], r)
  }

  /** String.replace(CharSequence, CharSequence) for any target, the empty one included. */
  function ReplaceAny(s: String, t: String, r: String): String
  {
    if |t| == 0 then InsertEverywhere(s, r) else Replace(s, t, r)
  }

  /** Removing a pattern leaves no occurrence of it when the pattern is a single character. */
  lemma {:induction false} RemoveCharLeavesNone(s: String, c: char)
    ensures !Contains(Replace(s, [c], []), [c])
    ensures |Replace(s, [c], [])| <= |s|
    decreases |s|
  {
    var res := Replace(s, [c], []);
    match IndexOfFrom(s, [c], 0)
    case None =>
    case Some(i) =>
      var rest := s[i + 1..];
      RemoveCharLeavesNone(rest, c);
      var tail := Replace(rest, [c], []);
      assert res == s[..i] + tail;
      ContainsIff(tail, [c]);
      forall k: nat | k < |res|
        ensures res[k] != c
      {
        if k < i {
          assert res[k] == s[k];
          assert !OccursAt(s, [c], k);
          assert s[k..k + 1] == [s[k]];
        } else {
          assert res[k] == tail[k - i];
          assert !OccursAt(tail, [c], k - i);
          assert tail[k - i..k - i + 1] == [tail[k - i]];
        }
      }
      forall k: nat ensures !OccursAt(res, [c], k) {
        if k < |res| {
          assert res[k..k + 1] == [res[k]];
        }
      }
      ContainsIff(res, [c]);
  }

  /** Removing every occurrence of t never lengthens a text, and shortens it by |t| when t occurs. */
  lemma {:induction false} RemoveShortens(s: String, t: String)
    requires |t| > 0
    ensures |Replace(s, t, [])| <= |s|
    ensures Contains(s, t) ==> |Replace(s, t, [])| <= |s| - |t|
    decreases |s|
  {
    match IndexOfFrom(s, t, 0)
    case None =>
    case Some(i) =>
      RemoveShortens(s[i + |t|..], t);
  }

  /** Removing a character that occurs makes the text strictly shorter. */
  lemma RemoveCharShortens(s: String, c: char)
    requires Contains(s, [c])
    ensures |Replace(s, [c], [])| < |s|
  {
    var i := IndexOfFrom(s, [c], 0).value;
    RemoveCharLeavesNone(s[i + 1..], c);
  }

  // ---------------------------------------------------------------------
  // ASCII case mapping (String.toUpperCase / toLowerCase on ASCII letters)
  // ---------------------------------------------------------------------

  function UpperChar(c: char): char
  {
    if 'a' <= c <= 'z' then (c as int - 32) as char else c
  }

  function LowerChar(c: char): char
  {
    if 'A' <= c <= 'Z' then (c as int + 32) as char else c
  }

  function Upper(s: String): (r: String)
    ensures |r| == |s|
    ensures forall i :: 0 <= i < |s| ==> r[i] == UpperChar(s[i])
  {
    seq(|s|, i requires 0 <= i < |s| => UpperChar(s[i]))
  }

  function Lower(s: String): (r: String)
    ensures |r| == |s|
    ensures forall i :: 0 <= i < |s| ==> r[i] == LowerChar(s[i])
  {
    seq(|s|, i requires 0 <= i < |s| => LowerChar(s[i]))
  }

  /** String.equalsIgnoreCase, restricted to ASCII case folding. */
  predicate EqualsIgnoreCase(a: String, b: String)
  {
    Lower(a) == Lower(b)
  }

  /**
   * The first letter upper-cased and the rest kept, as
   * `s.substring(0, 1).toUpperCase() + s.substring(1)` computes it; the empty
   * string makes `substring(0, 1)` throw.
   */
  function Capitalize(s: String): (r: Result<String>)
    ensures r.Fail? <==> |s| == 0
    ensures r.Fail? ==> r.error == IndexOutOfBounds
    ensures r.Ok? ==> |r.value| == |s| && r.value[0] == UpperChar(s[0]) && r.value[1..] == s[1..]
  {
    if |s| == 0 then Fail(IndexOutOfBounds) else Ok([UpperChar(s[0])] + s[1..])
  }

  // ---------------------------------------------------------------------
  // Joining: String.join / Collectors.joining
  // ---------------------------------------------------------------------

  function Join(parts: seq<String>, sep: String): String
  {
    if |parts| == 0 then []
    else if |parts| == 1 then parts[0]
    else parts[0] + sep + Join(parts[1..], sep)
  }

  // ---------------------------------------------------------------------
  // Decimal numbers: Integer.parseInt / Long.parseLong and their printing.
  // Only ASCII digits are modelled.
  // ---------------------------------------------------------------------

  function DigitValue(c: char): nat
    requires IsDigit(c)
  {
    c as int - '0' as int
  }

  function DigitsValue(s: String): nat
    requires AllDigits(s)
  {
    if |s| == 0 then 0 else 10 * DigitsValue(s[..|s| - 1]) + DigitValue(s[|s| - 1])
  }

  /**
   * Java's decimal parser: an optional '+' or '-' followed by at least one
   * digit, and a value within [min, max]; anything else is a
   * NumberFormatException, here None.
   */
  function ParseInRange(s: String, min: int, max: int): (r: Option<int>)
    ensures r.Some? ==> min <= r.value <= max
    ensures |s| == 0 ==> r.None?
  {
    if |s| == 0 then None
    else
      var negative := s[0] == '-';
      var digits := if s[0] == '-' || s[0] == '+' then s[1..] else s;
      if |digits| == 0 || !AllDigits(digits) then None
      else
        var v := if negative then -(DigitsValue(digits) as int) else DigitsValue(digits) as int;
        if min <= v <= max then Some(v) else None
  }

  /** Integer.parseInt. */
  function ParseInt(s: String): (r: Option<int>)
    ensures r.Some? ==> INT_MIN <= r.value <= INT_MAX
  {
    ParseInRange(s, INT_MIN, INT_MAX)
  }

  /** Long.parseLong. */
  function ParseLong(s: String): (r: Option<int>)
    ensures r.Some? ==> LONG_MIN <= r.value <= LONG_MAX
  {
    ParseInRange(s, LONG_MIN, LONG_MAX)
  }

  function DigitChar(d: nat): (c: char)
    requires d < 10
    ensures IsDigit(c) && DigitValue(c) == d
  {
    ('0' as int + d) as char
  }

  function NatToString(n: nat): (r: String)
    ensures |r| > 0 && AllDigits(r)
    decreases n
  {
    if n < 10 then [DigitChar(n)] else NatToString(n / 10) + [DigitChar(n % 10)]
  }

  /** String.valueOf(int) / String.valueOf(long). */
  function IntToString(n: int): String
  {
    if n < 0 then "-" + NatToString(-n) else NatToString(n)
  }

  lemma {:induction false} NatToStringValue(n: nat)
    ensures DigitsValue(NatToString(n)) == n
    decreases n
  {
    if n >= 10 {
      var r := NatToString(n);
      NatToStringValue(n / 10);
      assert r[..|r| - 1] == NatToString(n / 10);
    }
  }

  /** Integer.parseInt with its NumberFormatException as a failure. */
  function ParseIntChecked(s: String): (r: Result<int>)
    ensures r.Ok? <==> ParseInt(s).Some?
    ensures r.Ok? ==> r.value == ParseInt(s).value
    ensures r.Fail? ==> r.error == NumberFormat
  {
    match ParseInt(s)
    case Some(v) => Ok(v)
    case None => Fail(NumberFormat)
  }

  /** Long.parseLong with its NumberFormatException as a failure. */
  function ParseLongChecked(s: String): (r: Result<int>)
    ensures r.Ok? <==> ParseLong(s).Some?
    ensures r.Ok? ==> r.value == ParseLong(s).value
    ensures r.Fail? ==> r.error == NumberFormat
  {
    match ParseLong(s)
    case Some(v) => Ok(v)
    case None => Fail(NumberFormat)
  }

  function Pow10(n: nat): (p: nat)
    ensures p >= 1
  {
    if n == 0 then 1 else 10 * Pow10(n - 1)
  }

  lemma {:induction false} DigitsValueBelow(s: String)
    requires AllDigits(s)
    ensures DigitsValue(s) < Pow10(|s|)
  {
    if |s| > 0 {
      DigitsValueBelow(s[..|s| - 1]);
    }
  }

  lemma {:induction false} Pow10Grows(n: nat, m: nat)
    requires n <= m
    ensures Pow10(n) <= Pow10(m)
  {
    if n < m {
      Pow10Grows(n, m - 1);
    }
  }

  /** A run of at most nine digits always parses, to its decimal value. */
  lemma ParseShortDigits(s: String)
    requires 0 < |s| <= 9 && AllDigits(s)
    ensures ParseInt(s) == Some(DigitsValue(s))
    ensures ParseLong(s) == Some(DigitsValue(s))
  {
    DigitsValueBelow(s);
    Pow10Grows(|s|, 9);
    assert Pow10(9) == 1000000000;
    assert IsDigit(s[0]);
  }

  /** Printing a number and parsing it back yields the number. */
  lemma ParsePrinted(n: int, min: int, max: int)
    requires min <= n <= max
    ensures ParseInRange(IntToString(n), min, max) == Some(n)
  {
    var s := IntToString(n);
    if n < 0 {
      NatToStringValue(-n);
      assert s[1..] == NatToString(-n);
    } else {
      NatToStringValue(n);
    }
  }
}
