/**
 * The text layer shared by the playlist renderers: the tag names of the HTTP
 * Live Streaming playlist format (RFC 8216) that the playlists emit, and the
 * reader's view of a text as a sequence of lines.
 *
 * A renderer is specified by the lines a reader sees: `Unlines` writes lines
 * one after another, each ended by '\n', and `Lines` splits a text back at
 * '\n'. `LinesOfUnlines` shows the two are inverse on lines free of '\n', so a
 * statement about a rendering's `Lines` is a statement about what a player
 * reads.
 */
module HlsText {
  import opened JavaString

  // Tags of RFC 8216, section 4.3, as the playlist classes spell them.
  const HEADER: String := "#EXTM3U"
  const INF: String := "#EXTINF:"
  const VERSION: String := "#EXT-X-VERSION:4"
  const ALLOW_CACHE: String := "#EXT-X-ALLOW-CACHE:YES"
  const PLAYLIST_TYPE: String := "#EXT-X-PLAYLIST-TYPE:EVENT"
  const TARGET_DURATION: String := "#EXT-X-TARGETDURATION:"
  const PROGRAM_TIME: String := "#EXT-X-PROGRAM-DATE-TIME:"
  const MEDIA_SEQUENCE: String := "#EXT-X-MEDIA-SEQUENCE:"
  const ENDLIST: String := "#EXT-X-ENDLIST"

  /** A text that fits on one line. */
  predicate IsLine(s: String)
  {
    forall k :: 0 <= k < |s| ==> s[k] != '\n'
  }

  predicate AllLines(ls: seq<String>)
  {
    forall i :: 0 <= i < |ls| ==> IsLine(ls[i])
  }

  /** A line that a player reads as a tag or comment rather than a URI. */
  predicate IsTagLine(s: String)
  {
    |s| > 0 && s[0] == '#'
  }

  /** The length of the first line of s: the position of the first '\n', or |s|. */
  function LineLength(s: String): (n: nat)
    ensures n <= |s|
    ensures forall k :: 0 <= k < n ==> s[k] != '\n'
    ensures n < |s| ==> s[n] == '\n'
  {
    if |s| == 0 || s[0] == '\n' then 0 else 1 + LineLength(s[1..])
  }

  /** The lines of a text: each ends at a '\n', and a non-empty tail without one is a last line. */
  function Lines(s: String): (ls: seq<String>)
    ensures AllLines(ls)
    decreases |s|
  {
    if |s| == 0 then []
    else
      var n := LineLength(s);
      if n == |s| then [s] else [s[..n]] + Lines(s[n + 1..])
  }

  /** Lines written one after another, each followed by '\n'. */
  function Unlines(ls: seq<String>): String
  {
    if |ls| == 0 then [] else Unlines(ls[..|ls| - 1]) + ls[|ls| - 1] + "\n"
  }

  lemma LineLengthOf(x: String, rest: String)
    requires IsLine(x)
    ensures LineLength(x + "\n" + rest) == |x|
  {
    var s := x + "\n" + rest;
    assert s[|x|] == '\n';
    assert forall k :: 0 <= k < |x| ==> s[k] == x[k];
  }

  /** Reading the first line of a text made of a line, a '\n' and more text. */
  lemma LinesCons(x: String, rest: String)
    requires IsLine(x)
    ensures Lines(x + "\n" + rest) == [x] + Lines(rest)
  {
    var s := x + "\n" + rest;
    LineLengthOf(x, rest);
    assert s[..|x|] == x;
    assert s[|x| + 1..] == rest;
  }

  lemma {:induction false} UnlinesAppend(a: seq<String>, b: seq<String>)
    ensures Unlines(a + b) == Unlines(a) + Unlines(b)
    decreases |b|
  {
    if |b| > 0 {
      var c := a + b;
      assert c[..|c| - 1] == a + b[..|b| - 1];
      UnlinesAppend(a, b[..|b| - 1]);
    } else {
      assert a + b == a;
    }
  }

  lemma UnlinesCons(x: String, ls: seq<String>)
    ensures Unlines([x] + ls) == x + "\n" + Unlines(ls)
  {
    UnlinesAppend([x], ls);
    assert Unlines([x]) == Unlines([]) + x + "\n";
  }

  /** Splitting what `Unlines` wrote gives the lines back. */
  lemma {:induction false} LinesOfUnlines(ls: seq<String>)
    requires AllLines(ls)
    ensures Lines(Unlines(ls)) == ls
    decreases |ls|
  {
    if |ls| > 0 {
      assert ls == [ls[0]] + ls[1..];
      UnlinesCons(ls[0], ls[1..]);
      LinesCons(ls[0], Unlines(ls[1..]));
      LinesOfUnlines(ls[1..]);
    }
  }

  /** The same, when a last line without a terminating '\n' follows. */
  lemma {:induction false} LinesOfUnlinesThen(ls: seq<String>, last: String)
    requires AllLines(ls) && IsLine(last) && |last| > 0
    ensures Lines(Unlines(ls) + last) == ls + [last]
    decreases |ls|
  {
    if |ls| == 0 {
      assert Unlines(ls) + last == last;
      assert LineLength(last) == |last|;
    } else {
      assert ls == [ls[0]] + ls[1..];
      UnlinesCons(ls[0], ls[1..]);
      assert Unlines(ls) + last == ls[0] + "\n" + (Unlines(ls[1..]) + last);
      LinesCons(ls[0], Unlines(ls[1..]) + last);
      LinesOfUnlinesThen(ls[1..], last);
    }
  }

  /** The last line of what `Unlines` wrote. */
  lemma UnlinesLast(ls: seq<String>, x: String)
    ensures Unlines(ls + [x]) == Unlines(ls) + x + "\n"
  {
    assert (ls + [x])[..|ls|] == ls;
  }

  lemma AllLinesAppend(a: seq<String>, b: seq<String>)
    requires AllLines(a) && AllLines(b)
    ensures AllLines(a + b)
  {
    assert forall i :: |a| <= i < |a + b| ==> (a + b)[i] == b[i - |a|];
  }

  /** A line with a tag prefix and a one-line value is a line. */
  lemma ConcatIsLine(a: String, b: String)
    requires IsLine(a) && IsLine(b)
    ensures IsLine(a + b)
  {
    assert forall k :: |a| <= k < |a + b| ==> (a + b)[k] == b[k - |a|];
  }

  lemma PrintedIsLine(n: int)
    ensures IsLine(IntToString(n))
  {
    var s := NatToString(if n < 0 then -n else n);
    assert forall k :: 0 <= k < |s| ==> IsDigit(s[k]);
  }

  /** Collectors.joining: one more part adds a separator and the part at the end. */
  lemma {:induction false} JoinSnoc(a: seq<String>, x: String, sep: String)
    requires |a| > 0
    ensures Join(a + [x], sep) == Join(a, sep) + sep + x
    decreases |a|
  {
    if |a| == 1 {
      assert (a + [x])[1..] == [x];
    } else {
      assert (a + [x])[1..] == a[1..] + [x];
      JoinSnoc(a[1..], x, sep);
    }
  }

  lemma UnlinesOfTwo(a: String, b: String)
    ensures Unlines([a, b]) == a + "\n" + b + "\n"
  {
    UnlinesLast([a], b);
    UnlinesLast([], a);
    assert [] + [a] == [a];
    assert [a] + [b] == [a, b];
  }

  /** Six lines joined, each followed by its line break. */
  lemma UnlinesOfSix(a: String, b: String, c: String, d: String, e: String, f: String)
    ensures Unlines([a, b, c, d, e, f])
         == a + "\n" + b + "\n" + c + "\n" + d + "\n" + e + "\n" + f + "\n"
  {
    UnlinesOfTwo(a, b);
    UnlinesLast([a, b], c);
    assert [a, b] + [c] == [a, b, c];
    UnlinesLast([a, b, c], d);
    assert [a, b, c] + [d] == [a, b, c, d];
    UnlinesLast([a, b, c, d], e);
    assert [a, b, c, d] + [e] == [a, b, c, d, e];
    UnlinesLast([a, b, c, d, e], f);
    assert [a, b, c, d, e] + [f] == [a, b, c, d, e, f];
  }

  /** Appending a key, a number, '=', a value and '\n' appends the line key + number + "=" + value. */
  lemma AppendKeyValueLine(x: String, key: String, n: String, v: String)
    ensures x + key + n + "=" + v + "\n" == x + (key + n + "=" + v) + "\n"
  {
  }

  lemma AppendTwoLines(h: String, e: String, f: String, t: String)
    ensures h + e + f + "\n" + t + "\n" == h + (e + f + "\n" + t + "\n")
  {
  }
}
