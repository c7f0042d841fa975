/**
 * The slice of java.util.regex and String.split the parsers use.
 *
 * A pattern is represented by its anchored matcher: given a text and a start
 * position it returns where the match Java's engine would take from that
 * position ends. Every pattern the parsers split or search with is
 * non-empty-matching, so a matcher result is only accepted when it consumes at
 * least one character and stays inside the text. On top of that come the
 * leftmost search of `Matcher.find` and the limit-0 and limit-2 forms of
 * `String.split`.
 */
module Regex {
  import opened Outcome
  import opened JavaString

  type Matcher = (String, nat) -> Option<nat>

  /** The end of a non-empty match of m starting exactly at i. */
  function MatchEnd(m: Matcher, s: String, i: nat): (r: Option<nat>)
    ensures r.Some? ==> i < r.value <= |s|
  {
    if i >= |s| then None
    else match m(s, i)
      case Some(e) => if i < e <= |s| then Some(e) else None
      case None => None
  }

  /** A match: where it starts and where it ends. */
  datatype Span = Span(start: nat, end: nat)

  /** Matcher.find from position from: the leftmost match. */
  function Find(m: Matcher, s: String, from: nat): (r: Option<Span>)
    decreases |s| - from
    ensures r.Some? ==> from <= r.value.start < r.value.end <= |s|
    ensures r.Some? ==> MatchEnd(m, s, r.value.start) == Some(r.value.end)
    ensures r.Some? ==> forall k :: from <= k < r.value.start ==> MatchEnd(m, s, k).None?
    ensures r.None? ==> forall k :: from <= k ==> MatchEnd(m, s, k).None?
  {
    if from >= |s| then None
    else match MatchEnd(m, s, from)
      case Some(e) => Some(Span(from, e))
      case None => Find(m, s, from + 1)
  }

  predicate Found(m: Matcher, s: String)
  {
    Find(m, s, 0).Some?
  }

  lemma FoundIff(m: Matcher, s: String)
    ensures Found(m, s) <==> exists k :: MatchEnd(m, s, k).Some?
  {
  }

  /** The text between successive matches, from pos to the end of s. */
  function Pieces(m: Matcher, s: String, pos: nat): (r: seq<String>)
    requires pos <= |s|
    decreases |s| - pos
    ensures |r| >= 1
  {
    match Find(m, s, pos)
    case None => [s[pos..]]
    case Some(sp) => [s[pos..sp.start]] + Pieces(m, s, sp.end)
  }

  /** Drops the empty strings at the end of a list, as split does with limit 0. */
  function StripTrailingEmpty(parts: seq<String>): (r: seq<String>)
    ensures |r| <= |parts| && r == parts[..|r|]
    ensures |r| > 0 ==> r[|r| - 1] != []
  {
    if |parts| == 0 then []
    else if parts[|parts| - 1] == [] then StripTrailingEmpty(parts[..|parts| - 1])
    else parts
  }

  /** String.split(regex): no match gives [s]; otherwise trailing empty pieces are dropped. */
  function Split(m: Matcher, s: String): (r: seq<String>)
    ensures !Found(m, s) ==> r == [s]
  {
    if !Found(m, s) then [s] else StripTrailingEmpty(Pieces(m, s, 0))
  }

  /** String.split(regex, 2): at most one cut, at the first match, and nothing dropped. */
  function SplitOnce(m: Matcher, s: String): (r: seq<String>)
    ensures 1 <= |r| <= 2
    ensures |r| == 1 <==> !Found(m, s)
    ensures |r| == 1 ==> r[0] == s
  {
    match Find(m, s, 0)
    case None => [s]
    case Some(sp) => [s[..sp.start], s[sp.end..]]
  }

  /** Find passes over positions where no match starts. */
  lemma {:induction false} FindSkips(m: Matcher, s: String, from: nat, to: nat)
    requires from <= to
    requires forall k :: from <= k < to ==> MatchEnd(m, s, k).None?
    ensures Find(m, s, from) == Find(m, s, to)
    decreases (to as int) - (from as int)
  {
    if from < to && from < |s| {
      FindSkips(m, s, from + 1, to);
    }
  }

  // ---------------------------------------------------------------------
  // Literal patterns
  // ---------------------------------------------------------------------

  /** A pattern that matches the text t literally. */
  function Literal(t: String): Matcher
  {
    (s: String, i: nat) => if |t| > 0 && OccursAt(s, t, i) then Some(i + |t|) else None
  }

  /** For a literal pattern, find is String.indexOf. */
  lemma {:induction false} FindLiteral(t: String, s: String, from: nat)
    requires |t| > 0
    ensures Find(Literal(t), s, from).Some? <==> IndexOfFrom(s, t, from).Some?
    ensures Find(Literal(t), s, from).Some? ==>
      Find(Literal(t), s, from).value == Span(IndexOfFrom(s, t, from).value, IndexOfFrom(s, t, from).value + |t|)
    decreases |s| - from
  {
    if from < |s| && from + |t| <= |s| && !OccursAt(s, t, from) {
      FindLiteral(t, s, from + 1);
    }
  }

  lemma {:induction false} JoinPrepend(p: String, rest: seq<String>, sep: String)
    requires |rest| >= 1
    ensures Join([p] + rest, sep) == p + sep + Join(rest, sep)
  {
    assert ([p] + rest)[1..] == rest;
  }

  /** Joining the pieces of a literal split with the delimiter gives the text back. */
  lemma {:induction false} JoinPiecesLiteral(t: String, s: String, pos: nat)
    requires |t| > 0 && pos <= |s|
    ensures Join(Pieces(Literal(t), s, pos), t) == s[pos..]
    decreases |s| - pos
  {
    var f := Find(Literal(t), s, pos);
    if f.Some? {
      JoinPiecesLiteral(t, s, f.value.end);
      JoinPiecesAtMatch(t, s, pos, f.value);
    }
  }

  /** The piece before a match, the delimiter, and the rest joined back give the text from pos. */
  lemma JoinPiecesAtMatch(t: String, s: String, pos: nat, sp: Span)
    requires |t| > 0 && pos <= |s| && Find(Literal(t), s, pos) == Some(sp)
    requires Join(Pieces(Literal(t), s, sp.end), t) == s[sp.end..]
    ensures Join(Pieces(Literal(t), s, pos), t) == s[pos..]
  {
    var before := s[pos..sp.start];
    var rest := Pieces(Literal(t), s, sp.end);
    assert Pieces(Literal(t), s, pos) == [before] + rest;
    JoinPrepend(before, rest, t);
    LiteralMatch(t, s, sp.start, sp.end);
    Regroup(s, pos, sp.start, sp.end);
  }

  /** A match of a literal pattern is the literal text. */
  lemma LiteralMatch(t: String, s: String, i: nat, e: nat)
    requires MatchEnd(Literal(t), s, i) == Some(e)
    ensures e == i + |t| <= |s| && s[i..e] == t
  {
  }

  /** A text cut at two positions and put back together. */
  lemma Regroup(s: String, pos: nat, a: nat, b: nat)
    requires pos <= a <= b <= |s|
    ensures s[pos..a] + s[a..b] + s[b..] == s[pos..]
  {
    SliceConcat(s, a, b);
    SliceConcat(s, pos, a);
    ConcatAssoc(s[pos..a], s[a..b], s[b..]);
  }

  /** No piece of a literal split contains the delimiter. */
  lemma {:induction false} PiecesLiteralFree(t: String, s: String, pos: nat)
    requires |t| > 0 && pos <= |s|
    ensures forall k :: 0 <= k < |Pieces(Literal(t), s, pos)| ==> !Contains(Pieces(Literal(t), s, pos)[k], t)
    decreases |s| - pos
  {
    var ps := Pieces(Literal(t), s, pos);
    match Find(Literal(t), s, pos)
    case None =>
      FindLiteral(t, s, pos);
      NoOccurrenceInSuffix(s, t, pos);
    case Some(sp) =>
      FindLiteral(t, s, pos);
      PiecesLiteralFree(t, s, sp.end);
      NoOccurrenceBefore(s, t, pos, sp.start);
  }

  lemma NoOccurrenceInSuffix(s: String, t: String, pos: nat)
    requires pos <= |s|
    requires IndexOfFrom(s, t, pos).None?
    ensures !Contains(s[pos..], t)
  {
    assert s[pos..] == s[pos..|s|];
    SliceOccurrences(s, t, pos, |s|);
    ContainsIff(s[pos..], t);
  }

  /** Every occurrence inside a slice is an occurrence in the whole text, shifted by the slice's start. */
  lemma SliceOccurrences(s: String, t: String, i: nat, j: nat)
    requires i <= j <= |s|
    ensures forall k: nat :: OccursAt(s[i..j], t, k) ==> OccursAt(s, t, i + k)
  {
    forall k: nat | OccursAt(s[i..j], t, k)
      ensures OccursAt(s, t, i + k)
    {
      OccursInSlice(s, t, i, j, k);
    }
  }

  lemma NoOccurrenceBefore(s: String, t: String, pos: nat, start: nat)
    requires |t| > 0 && pos <= start <= |s|
    requires forall k :: pos <= k < start ==> !OccursAt(s, t, k)
    ensures !Contains(s[pos..start], t)
  {
    SliceOccurrences(s, t, pos, start);
    ContainsIff(s[pos..start], t);
  }

  /** A one-character literal matches exactly where that character stands. */
  lemma LiteralCharAt(c: char, s: String, k: nat)
    ensures MatchEnd(Literal([c]), s, k).Some? <==> k < |s| && s[k] == c
  {
    if k < |s| {
      assert s[k..k + 1] == [s[k]];
    }
  }

  /** Splitting on a character that does not occur gives the text back whole. */
  lemma SplitWithout(c: char, x: String)
    requires c !in x
    ensures Split(Literal([c]), x) == [x]
  {
    forall k | 0 <= k
      ensures MatchEnd(Literal([c]), x, k).None?
    {
      LiteralCharAt(c, x, k);
    }
  }

  /** Splitting x + c + y on c, where c occurs in neither side and y is not empty, gives [x, y]. */
  lemma SplitAtOnly(c: char, x: String, y: String)
    requires c !in x && c !in y && y != []
    ensures Split(Literal([c]), x + [c] + y) == [x, y]
  {
    var s := x + [c] + y;
    var m := Literal([c]);
    forall k | 0 <= k < |x|
      ensures MatchEnd(m, s, k).None?
    {
      assert s[k] == x[k];
      LiteralCharAt(c, s, k);
    }
    FindSkips(m, s, 0, |x|);
    LiteralCharAt(c, s, |x|);
    assert Find(m, s, 0) == Some(Span(|x|, |x| + 1));
    forall k | |x| + 1 <= k < |s|
      ensures MatchEnd(m, s, k).None?
    {
      assert s[k] == y[k - |x| - 1];
      LiteralCharAt(c, s, k);
    }
    FindSkips(m, s, |x| + 1, |s|);
    assert Pieces(m, s, |x| + 1) == [s[|x| + 1..]];
    assert s[..|x|] == x && s[|x| + 1..] == y;
    assert Pieces(m, s, 0) == [x, y];
  }

  // ---------------------------------------------------------------------
  // Splitting on one literal character, defined character by character
  // ---------------------------------------------------------------------

  /** The fields of s between occurrences of c, empty ones included. */
  function CharPieces(c: char, s: String): (r: seq<String>)
    ensures |r| >= 1
  {
    if |s| == 0 then [[]]
    else
      var rest := CharPieces(c, s[1..]);
      if s[0] == c then [[]] + rest else [[s[0]] + rest[0]] + rest[1..]
  }

  /** String.split on a one-character literal pattern. */
  function SplitChar(c: char, s: String): (r: seq<String>)
    ensures c !in s ==> r == [s]
  {
    if c !in s then [s] else StripTrailingEmpty(CharPieces(c, s))
  }

  /** Field by field, the character-wise pieces are the pieces between the matches of the literal. */
  lemma {:induction false} CharPiecesArePieces(c: char, s: String, pos: nat)
    requires pos <= |s|
    ensures CharPieces(c, s[pos..]) == Pieces(Literal([c]), s, pos)
    decreases |s| - pos
  {
    if pos == |s| {
      assert s[pos..] == [];
      assert Find(Literal([c]), s, pos).None?;
    } else {
      CharPiecesArePieces(c, s, pos + 1);
      if s[pos] == c {
        CharPiecesAtMatch(c, s, pos);
      } else {
        CharPiecesPastOther(c, s, pos);
      }
    }
  }

  /** A separator at pos closes an empty piece. */
  lemma CharPiecesAtMatch(c: char, s: String, pos: nat)
    requires pos < |s| && s[pos] == c
    requires CharPieces(c, s[pos + 1..]) == Pieces(Literal([c]), s, pos + 1)
    ensures CharPieces(c, s[pos..]) == Pieces(Literal([c]), s, pos)
  {
    assert s[pos..][1..] == s[pos + 1..];
    LiteralCharAt(c, s, pos);
    assert Find(Literal([c]), s, pos) == Some(Span(pos, pos + 1));
    assert s[pos..pos] == [];
  }

  /** Any other character at pos starts the first piece. */
  lemma CharPiecesPastOther(c: char, s: String, pos: nat)
    requires pos < |s| && s[pos] != c
    requires CharPieces(c, s[pos + 1..]) == Pieces(Literal([c]), s, pos + 1)
    ensures CharPieces(c, s[pos..]) == Pieces(Literal([c]), s, pos)
  {
    var m := Literal([c]);
    assert s[pos..][1..] == s[pos + 1..];
    LiteralCharAt(c, s, pos);
    FindSkips(m, s, pos, pos + 1);
    match Find(m, s, pos + 1)
    case None =>
      assert s[pos..] == [s[pos]] + s[pos + 1..];
    case Some(sp) =>
      assert s[pos..sp.start] == [s[pos]] + s[pos + 1..sp.start];
  }


  /** The character-wise split is String.split with the literal pattern. */
  lemma SplitCharIsSplit(c: char, s: String)
    ensures SplitChar(c, s) == Split(Literal([c]), s)
  {
    CharPiecesArePieces(c, s, 0);
    assert s[0..] == s;
    if c in s {
      var k :| 0 <= k < |s| && s[k] == c;
      LiteralCharAt(c, s, k);
    } else {
      SplitWithout(c, s);
    }
  }

  // ---------------------------------------------------------------------
  // Character-class patterns shared by several parsers
  // ---------------------------------------------------------------------

  /** A one-character class [c] for a predicate on characters. */
  function CharClass(p: char -> bool): Matcher
  {
    (s: String, i: nat) => if i < |s| && p(s[i]) then Some(i + 1) else None
  }

  /** The length of the run of characters satisfying p that starts at i. */
  function RunLength(p: char -> bool, s: String, i: nat): (n: nat)
    decreases |s| - i
    ensures i + n <= |s| || (i >= |s| && n == 0)
    ensures forall k :: i <= k < i + n ==> p(s[k])
    ensures i + n < |s| ==> !p(s[i + n])
  {
    if i >= |s| || !p(s[i]) then 0 else 1 + RunLength(p, s, i + 1)
  }

  /** `[class]+`, greedy. */
  function Plus(p: char -> bool): Matcher
  {
    (s: String, i: nat) => if RunLength(p, s, i) > 0 then Some(i + RunLength(p, s, i)) else None
  }

  predicate DigitAt(s: String, i: nat)
  {
    i < |s| && IsDigit(s[i])
  }

  /** `\d{2}`: two digits. */
  const TwoDigits: Matcher :=
    (s: String, i: nat) => if DigitAt(s, i) && DigitAt(s, i + 1) then Some(i + 2) else None

  /** A run of exactly n characters of the class from pos, ended by another character or the end of the text, is the run there. */
  lemma {:induction false} RunLengthExact(c: char -> bool, s: String, pos: nat, n: nat)
    requires pos + n <= |s|
    requires forall k :: pos <= k < pos + n ==> c(s[k])
    requires pos + n < |s| ==> !c(s[pos + n])
    ensures RunLength(c, s, pos) == n
    decreases n
  {
    if n > 0 {
      RunLengthExact(c, s, pos + 1, n - 1);
    }
  }

  /** Regex `(\d+)` searched for and its group parsed as an int. */
  function FirstDigitRun(s: String): (r: Option<String>)
    ensures r.Some? ==> |r.value| > 0 && AllDigits(r.value)
    ensures r.None? <==> forall k :: 0 <= k < |s| ==> !IsDigit(s[k])
  {
    match Find(Plus(IsDigit), s, 0)
    case None =>
      assert forall k :: 0 <= k < |s| ==> !IsDigit(s[k]) by {
        forall k | 0 <= k < |s| ensures !IsDigit(s[k]) {
          assert MatchEnd(Plus(IsDigit), s, k).None?;
        }
      }
      None
    case Some(sp) => Some(s[sp.start..sp.end])
  }

  /** A text whose only match is sep, standing right after x, splits into x and y when y is not empty. */
  lemma SplitAtOneMatch(m: Matcher, x: String, sep: String, y: String)
    requires y != []
    requires forall k :: 0 <= k < |x| ==> MatchEnd(m, x + sep + y, k).None?
    requires MatchEnd(m, x + sep + y, |x|) == Some(|x| + |sep|)
    requires forall k :: |x| + |sep| <= k ==> MatchEnd(m, x + sep + y, k).None?
    ensures Split(m, x + sep + y) == [x, y]
  {
    var s := x + sep + y;
    FindSkips(m, s, 0, |x|);
    assert Find(m, s, 0) == Some(Span(|x|, |x| + |sep|));
    FindSkips(m, s, |x| + |sep|, |s|);
    assert Pieces(m, s, |x| + |sep|) == [s[|x| + |sep|..]];
    assert s[..|x|] == x && s[|x| + |sep|..] == y;
    assert Pieces(m, s, 0) == [x, y];
  }

  /** No piece of a split on a character class holds a character of the class. */
  lemma {:induction false} PiecesClassFree(p: char -> bool, s: String, pos: nat)
    requires pos <= |s|
    ensures forall i, k :: 0 <= i < |Pieces(CharClass(p), s, pos)| && 0 <= k < |Pieces(CharClass(p), s, pos)[i]|
              ==> !p(Pieces(CharClass(p), s, pos)[i][k])
    decreases |s| - pos
  {
    var m := CharClass(p);
    var ps := Pieces(m, s, pos);
    match Find(m, s, pos)
    case None =>
      forall k | 0 <= k < |ps[0]| ensures !p(ps[0][k]) {
        assert ps[0][k] == s[pos + k];
        assert MatchEnd(m, s, pos + k).None?;
      }
    case Some(sp) =>
      PiecesClassFree(p, s, sp.end);
      forall k | 0 <= k < |ps[0]| ensures !p(ps[0][k]) {
        assert ps[0][k] == s[pos + k];
        assert MatchEnd(m, s, pos + k).None?;
      }
      assert ps[1..] == Pieces(m, s, sp.end);
  }

  /** No field of a split on a character class holds a character of the class. */
  lemma SplitClassFree(p: char -> bool, s: String)
    ensures forall i, k :: 0 <= i < |Split(CharClass(p), s)| && 0 <= k < |Split(CharClass(p), s)[i]|
              ==> !p(Split(CharClass(p), s)[i][k])
  {
    var m := CharClass(p);
    PiecesClassFree(p, s, 0);
    if !Found(m, s) {
      forall k | 0 <= k < |s| ensures !p(s[k]) {
        assert MatchEnd(m, s, k).None?;
      }
    }
  }

  // ---------------------------------------------------------------------
  // Capturing groups
  // ---------------------------------------------------------------------

  /** A successful find: the matched text and groups 1, 2, ... in order, a group that took part in no match being None. */
  datatype MatchResult = MatchResult(text: String, groups: seq<Option<String>>)

  /** A configured pattern whose source is not part of this model, given as its first find in a text. */
  type Pattern = String -> Option<MatchResult>

  /** Matcher.group(i) for i >= 1: IndexOutOfBoundsException past the last group. */
  function Group(m: MatchResult, i: nat): (r: Result<Option<String>>)
    requires i >= 1
    ensures r.Fail? <==> i > |m.groups|
    ensures r.Fail? ==> r.error == IndexOutOfBounds
    ensures r.Ok? ==> r.value == m.groups[i - 1]
  {
    if i > |m.groups| then Fail(IndexOutOfBounds) else Ok(m.groups[i - 1])
  }
}
