/**
 * The HLS media playlist of the video package (model/video/M3UPlaylist.java):
 * segments are appended with a running total of their durations, and the
 * playlist renders as an RFC 8216 media playlist, as a simple M3U list and as
 * a PLS list.
 */
module M3UPlaylist {
  import opened Outcome
  import opened JavaString
  import opened HlsText

  /** Double.toString, the printer of durations; its digits are not modelled. */
  type DoublePrinter = real -> String

  /** One record of the playlist: the URL of the media, an optional title and an optional duration. */
  datatype MediaSegment = MediaSegment(url: String, title: Option<String>, duration: Option<real>)

  /** A missing duration adds nothing to the total. */
  function DurationOf(d: Option<real>): real
  {
    if d.Some? then d.value else 0.0
  }

  /** The sum of the segments' durations. */
  function TotalDuration(segs: seq<MediaSegment>): real
  {
    if |segs| == 0 then 0.0
    else TotalDuration(segs[..|segs| - 1]) + DurationOf(segs[|segs| - 1].duration)
  }

  /** A title formatted with `%s` or appended to a StringBuilder: null prints as "null". */
  function Printed(title: Option<String>): String
  {
    if title.Some? then title.value else "null"
  }

  // ---------------------------------------------------------------------
  // The extended M3U rendering (toString)
  // ---------------------------------------------------------------------

  /** MediaSegment.toString: INF, the duration or "2000", ", ", the title or "", then the URL on a line of its own. */
  function SegmentText(m: MediaSegment, show: DoublePrinter): String
  {
    var duration := if m.duration.Some? then show(m.duration.value) else "2000";
    var title := if m.title.Some? then m.title.value else "";
    INF + duration + ", " + title + "\n" + m.url + "\n"
  }

  /** The segments appended one after another, in insertion order. */
  function SegmentsText(segs: seq<MediaSegment>, show: DoublePrinter): String
  {
    if |segs| == 0 then []
    else SegmentsText(segs[..|segs| - 1], show) + SegmentText(segs[|segs| - 1], show)
  }

  /** toString: the fixed tags, a blank line, MEDIA-SEQUENCE 0, the segments and ENDLIST when finalized. */
  function Render(segs: seq<MediaSegment>, finalized: bool, show: DoublePrinter): String
  {
    HEADER + "\n" + PLAYLIST_TYPE + "\n" + VERSION + "\n" + ALLOW_CACHE + "\n" + "\n"
    + MEDIA_SEQUENCE + IntToString(0) + "\n"
    + SegmentsText(segs, show)
    + (if finalized then ENDLIST + "\n" else "")
  }

  // The reader's view of the rendering.

  /** The EXTINF line of a segment. */
  function InfLine(m: MediaSegment, show: DoublePrinter): String
  {
    INF + (if m.duration.Some? then show(m.duration.value) else "2000") + ", "
    + (if m.title.Some? then m.title.value else "")
  }

  const HeadLines: seq<String> :=
    [HEADER, PLAYLIST_TYPE, VERSION, ALLOW_CACHE, "", MEDIA_SEQUENCE + "0"]

  /** Two lines per segment: its EXTINF line, then its URL. */
  function SegmentLines(segs: seq<MediaSegment>, show: DoublePrinter): (ls: seq<String>)
    ensures |ls| == 2 * |segs|
  {
    if |segs| == 0 then []
    else
      var m := segs[|segs| - 1];
      SegmentLines(segs[..|segs| - 1], show) + [InfLine(m, show), m.url]
  }

  function PlaylistLines(segs: seq<MediaSegment>, finalized: bool, show: DoublePrinter): seq<String>
  {
    HeadLines + SegmentLines(segs, show) + (if finalized then [ENDLIST] else [])
  }

  /** Every URL and title fits on one line. */
  predicate TextsOnOneLine(segs: seq<MediaSegment>)
  {
    forall k :: 0 <= k < |segs| ==> IsLine(segs[k].url) && IsLine(Printed(segs[k].title))
  }

  /** Every URL, title and printed duration fits on one line. */
  predicate OnOneLine(segs: seq<MediaSegment>, show: DoublePrinter)
  {
    && TextsOnOneLine(segs)
    && forall k :: 0 <= k < |segs| ==> segs[k].duration.Some? ==> IsLine(show(segs[k].duration.value))
  }

  /** No URL reads as a tag line. */
  predicate UrlsAreUris(segs: seq<MediaSegment>)
  {
    forall k :: 0 <= k < |segs| ==> !IsTagLine(segs[k].url)
  }

  lemma InfLineIsLine(m: MediaSegment, show: DoublePrinter)
    requires IsLine(Printed(m.title)) && (m.duration.Some? ==> IsLine(show(m.duration.value)))
    ensures IsLine(InfLine(m, show))
  {
    var d := if m.duration.Some? then show(m.duration.value) else "2000";
    var t := if m.title.Some? then m.title.value else "";
    ConcatIsLine(INF, d);
    ConcatIsLine(INF + d, ", ");
    ConcatIsLine(INF + d + ", ", t);
  }

  /** A segment renders as exactly two lines: the EXTINF line and the URL. */
  lemma SegmentTextLines(m: MediaSegment, show: DoublePrinter)
    ensures SegmentText(m, show) == Unlines([InfLine(m, show), m.url])
  {
    UnlinesLast([InfLine(m, show)], m.url);
    UnlinesLast([], InfLine(m, show));
    assert [InfLine(m, show)] + [m.url] == [InfLine(m, show), m.url];
  }

  lemma {:induction false} SegmentsTextLines(segs: seq<MediaSegment>, show: DoublePrinter)
    ensures SegmentsText(segs, show) == Unlines(SegmentLines(segs, show))
    ensures OnOneLine(segs, show) ==> AllLines(SegmentLines(segs, show))
    decreases |segs|
  {
    if |segs| > 0 {
      var init := segs[..|segs| - 1];
      var m := segs[|segs| - 1];
      SegmentsTextLines(init, show);
      SegmentTextLines(m, show);
      UnlinesAppend(SegmentLines(init, show), [InfLine(m, show), m.url]);
      if OnOneLine(segs, show) {
        assert OnOneLine(init, show) by {
          forall k | 0 <= k < |init| ensures segs[k] == init[k] { }
        }
        InfLineIsLine(m, show);
        AllLinesAppend(SegmentLines(init, show), [InfLine(m, show), m.url]);
      }
    }
  }

  /** The k-th segment's lines are the (2k)-th and (2k+1)-th segment lines: insertion order is kept. */
  lemma {:induction false} SegmentLinesAt(segs: seq<MediaSegment>, show: DoublePrinter, k: nat)
    requires k < |segs|
    ensures SegmentLines(segs, show)[2 * k] == InfLine(segs[k], show)
    ensures SegmentLines(segs, show)[2 * k + 1] == segs[k].url
    decreases |segs|
  {
    if k < |segs| - 1 {
      var init := segs[..|segs| - 1];
      SegmentLinesAt(init, show, k);
      assert init[k] == segs[k];
    }
  }

  lemma HeadText()
    ensures Unlines(HeadLines)
         == HEADER + "\n" + PLAYLIST_TYPE + "\n" + VERSION + "\n" + ALLOW_CACHE + "\n" + "\n"
            + MEDIA_SEQUENCE + IntToString(0) + "\n"
  {
    assert IntToString(0) == "0";
    UnlinesOfSix(HEADER, PLAYLIST_TYPE, VERSION, ALLOW_CACHE, "", MEDIA_SEQUENCE + "0");
    assert ALLOW_CACHE + "\n" + "" == ALLOW_CACHE + "\n";
  }

  lemma EndText(finalized: bool)
    ensures Unlines(if finalized then [ENDLIST] else []) == (if finalized then ENDLIST + "\n" else "")
  {
    if finalized {
      UnlinesLast([], ENDLIST);
      assert [] + [ENDLIST] == [ENDLIST];
    }
  }

  lemma RenderIsUnlines(segs: seq<MediaSegment>, finalized: bool, show: DoublePrinter)
    ensures Render(segs, finalized, show) == Unlines(PlaylistLines(segs, finalized, show))
  {
    var end: seq<String> := if finalized then [ENDLIST] else [];
    HeadText();
    SegmentsTextLines(segs, show);
    EndText(finalized);
    UnlinesAppend(HeadLines, SegmentLines(segs, show));
    UnlinesAppend(HeadLines + SegmentLines(segs, show), end);
  }

  lemma HeadLinesAreLines()
    ensures AllLines(HeadLines)
  {
    assert IsLine(HEADER) && IsLine(PLAYLIST_TYPE) && IsLine(VERSION);
    assert IsLine(ALLOW_CACHE) && IsLine("") && IsLine(MEDIA_SEQUENCE + "0");
  }

  lemma PlaylistLinesAreLines(segs: seq<MediaSegment>, finalized: bool, show: DoublePrinter)
    requires OnOneLine(segs, show)
    ensures AllLines(PlaylistLines(segs, finalized, show))
  {
    var end: seq<String> := if finalized then [ENDLIST] else [];
    SegmentsTextLines(segs, show);
    HeadLinesAreLines();
    AllLinesAppend(HeadLines, SegmentLines(segs, show));
    AllLinesAppend(HeadLines + SegmentLines(segs, show), end);
  }

  /** The rendered text is the playlist lines, each ended by '\n'; a reader splits it back into them. */
  lemma RenderLines(segs: seq<MediaSegment>, finalized: bool, show: DoublePrinter)
    requires OnOneLine(segs, show)
    ensures Lines(Render(segs, finalized, show)) == PlaylistLines(segs, finalized, show)
  {
    RenderIsUnlines(segs, finalized, show);
    PlaylistLinesAreLines(segs, finalized, show);
    LinesOfUnlines(PlaylistLines(segs, finalized, show));
  }

  lemma InfLineNotTargetDuration(m: MediaSegment, show: DoublePrinter)
    ensures !StartsWith(InfLine(m, show), TARGET_DURATION)
  {
    var s := InfLine(m, show);
    assert s[4] == 'I';
    assert TARGET_DURATION[4] == '-';
  }

  /** None of the fixed tags is a TARGETDURATION tag. */
  lemma FixedTagsNotTargetDuration()
    ensures forall i :: 0 <= i < |HeadLines| ==> !StartsWith(HeadLines[i], TARGET_DURATION)
    ensures !StartsWith(ENDLIST, TARGET_DURATION)
  {
    assert TARGET_DURATION[7] == 'T';
    assert PLAYLIST_TYPE[7] == 'P';
    assert VERSION[7] == 'V';
    assert ALLOW_CACHE[7] == 'A';
    assert (MEDIA_SEQUENCE + "0")[7] == 'M';
  }

  /** The order and the tags of the playlist lines. */
  lemma PlaylistLinesShape(segs: seq<MediaSegment>, finalized: bool, show: DoublePrinter)
    requires UrlsAreUris(segs)
    ensures var ls := PlaylistLines(segs, finalized, show);
      && |ls| == 6 + 2 * |segs| + (if finalized then 1 else 0)
      && ls[..6] == HeadLines
      && (forall k :: 0 <= k < |segs| ==> ls[6 + 2 * k] == InfLine(segs[k], show) && ls[7 + 2 * k] == segs[k].url)
      && (ls[|ls| - 1] == ENDLIST <==> finalized)
      && (forall i :: 0 <= i < |ls| ==> !StartsWith(ls[i], TARGET_DURATION))
  {
    var ls := PlaylistLines(segs, finalized, show);
    var sl := SegmentLines(segs, show);
    assert ls[..6] == HeadLines;
    forall k | 0 <= k < |segs|
      ensures ls[6 + 2 * k] == InfLine(segs[k], show) && ls[7 + 2 * k] == segs[k].url
    {
      SegmentLinesAt(segs, show, k);
    }
    if !finalized && |segs| > 0 {
      SegmentLinesAt(segs, show, |segs| - 1);
      assert ls[|ls| - 1] == segs[|segs| - 1].url;
      assert !IsTagLine(segs[|segs| - 1].url);
    }
    forall i | 0 <= i < |ls| ensures !StartsWith(ls[i], TARGET_DURATION)
    {
      if 6 <= i < 6 + |sl| {
        var k := (i - 6) / 2;
        SegmentLinesAt(segs, show, k);
        if i % 2 == 0 {
          InfLineNotTargetDuration(segs[k], show);
        } else {
          assert ls[i] == segs[k].url;
          assert !IsTagLine(segs[k].url);
        }
      } else if i < 6 {
        FixedTagsNotTargetDuration();
        assert ls[i] == HeadLines[i];
      } else {
        FixedTagsNotTargetDuration();
      }
    }
  }

  /**
   * What a player reads: the header and fixed tags, then each segment's EXTINF
   * line followed by its URL in insertion order, then ENDLIST exactly when the
   * playlist is finalized. No EXT-X-TARGETDURATION line is emitted, although
   * section 4.3.3.1 of RFC 8216 requires one.
   */
  lemma RenderShape(segs: seq<MediaSegment>, finalized: bool, show: DoublePrinter)
    requires OnOneLine(segs, show) && UrlsAreUris(segs)
    ensures var ls := Lines(Render(segs, finalized, show));
      && |ls| == 6 + 2 * |segs| + (if finalized then 1 else 0)
      && ls[0] == HEADER
      && ls[..6] == HeadLines
      && (forall k :: 0 <= k < |segs| ==> ls[6 + 2 * k] == InfLine(segs[k], show) && ls[7 + 2 * k] == segs[k].url)
      && (ls[|ls| - 1] == ENDLIST <==> finalized)
      && (forall i :: 0 <= i < |ls| ==> !StartsWith(ls[i], TARGET_DURATION))
  {
    RenderLines(segs, finalized, show);
    PlaylistLinesShape(segs, finalized, show);
    assert HeadLines[0] == HEADER;
  }

  // ---------------------------------------------------------------------
  // The simple M3U rendering (getSimplePlaylist)
  // ---------------------------------------------------------------------

  /** One entry per segment: "# title" and the URL on the next line. */
  function SimpleEntries(segs: seq<MediaSegment>): (es: seq<String>)
    ensures |es| == |segs|
  {
    if |segs| == 0 then []
    else
      var m := segs[|segs| - 1];
      SimpleEntries(segs[..|segs| - 1]) + ["# " + Printed(m.title) + "\n" + m.url]
  }

  /** getSimplePlaylist: the entries joined with "\n", and one more "\n". */
  function Simple(segs: seq<MediaSegment>): String
  {
    Join(SimpleEntries(segs), "\n") + "\n"
  }

  /** Two lines per segment: the title comment and the URL. */
  function SimpleLines(segs: seq<MediaSegment>): (ls: seq<String>)
    ensures |ls| == 2 * |segs|
  {
    if |segs| == 0 then []
    else
      var m := segs[|segs| - 1];
      SimpleLines(segs[..|segs| - 1]) + ["# " + Printed(m.title), m.url]
  }

  /**
   * The simple playlist is each segment's "# title" line and URL line in
   * order; with no segments it is a single empty line.
   */
  lemma {:induction false} SimpleText(segs: seq<MediaSegment>)
    ensures Simple(segs) == Unlines(if |segs| == 0 then [""] else SimpleLines(segs))
    decreases |segs|
  {
    if |segs| == 0 {
      UnlinesLast([], "");
      assert [] + [""] == [""];
    } else {
      var init := segs[..|segs| - 1];
      var m := segs[|segs| - 1];
      var e := "# " + Printed(m.title) + "\n" + m.url;
      var pair := ["# " + Printed(m.title), m.url];
      assert Unlines(pair) == "# " + Printed(m.title) + "\n" + m.url + "\n" by {
        UnlinesLast(["# " + Printed(m.title)], m.url);
        UnlinesLast([], "# " + Printed(m.title));
        assert [] + ["# " + Printed(m.title)] == ["# " + Printed(m.title)];
        assert ["# " + Printed(m.title)] + [m.url] == pair;
      }
      UnlinesAppend(SimpleLines(init), pair);
      if |init| == 0 {
        assert SimpleEntries(segs) == [e];
        assert SimpleLines(segs) == pair;
      } else {
        SimpleText(init);
        JoinSnoc(SimpleEntries(init), e, "\n");
      }
    }
  }

  // ---------------------------------------------------------------------
  // The PLS rendering (getPlsPlaylist)
  // ---------------------------------------------------------------------

  /** The FileN line of the segment numbered n. */
  function FileLine(m: MediaSegment, n: int): String
  {
    "File" + IntToString(n) + "=" + m.url
  }

  /** The TitleN line of the segment numbered n. */
  function TitleLine(m: MediaSegment, n: int): String
  {
    "Title" + IntToString(n) + "=" + Printed(m.title)
  }

  /** The FileN and TitleN entries of the segments, numbered from 1. */
  function PlsEntries(segs: seq<MediaSegment>): String
  {
    if |segs| == 0 then []
    else
      var m := segs[|segs| - 1];
      PlsEntries(segs[..|segs| - 1]) + FileLine(m, |segs|) + "\n" + TitleLine(m, |segs|) + "\n"
  }

  /** getPlsPlaylist: the section header, a blank line, the entries, a blank line and the count. */
  function Pls(segs: seq<MediaSegment>): String
  {
    "[playlist]\n\n" + PlsEntries(segs) + "\n" + "NumberOfEntries=" + IntToString(|segs|) + "\n"
  }

  function PlsEntryLines(segs: seq<MediaSegment>): (ls: seq<String>)
    ensures |ls| == 2 * |segs|
  {
    if |segs| == 0 then []
    else
      var m := segs[|segs| - 1];
      PlsEntryLines(segs[..|segs| - 1]) + [FileLine(m, |segs|), TitleLine(m, |segs|)]
  }

  lemma {:induction false} PlsEntriesText(segs: seq<MediaSegment>)
    ensures PlsEntries(segs) == Unlines(PlsEntryLines(segs))
    decreases |segs|
  {
    if |segs| > 0 {
      var init := segs[..|segs| - 1];
      var m := segs[|segs| - 1];
      var n := |segs|;
      PlsEntriesText(init);
      UnlinesLast(PlsEntryLines(init), FileLine(m, n));
      UnlinesLast(PlsEntryLines(init) + [FileLine(m, n)], TitleLine(m, n));
      assert PlsEntryLines(init) + [FileLine(m, n)] + [TitleLine(m, n)] == PlsEntryLines(segs);
    }
  }

  lemma PlsEntryIsLine(m: MediaSegment, n: int)
    requires IsLine(m.url) && IsLine(Printed(m.title))
    ensures IsLine(FileLine(m, n)) && IsLine(TitleLine(m, n))
  {
    PrintedIsLine(n);
    ConcatIsLine("File", IntToString(n));
    ConcatIsLine("File" + IntToString(n), "=");
    ConcatIsLine("File" + IntToString(n) + "=", m.url);
    ConcatIsLine("Title", IntToString(n));
    ConcatIsLine("Title" + IntToString(n), "=");
    ConcatIsLine("Title" + IntToString(n) + "=", Printed(m.title));
  }

  lemma {:induction false} PlsEntryLinesAreLines(segs: seq<MediaSegment>)
    requires TextsOnOneLine(segs)
    ensures AllLines(PlsEntryLines(segs))
    decreases |segs|
  {
    if |segs| > 0 {
      var init := segs[..|segs| - 1];
      var m := segs[|segs| - 1];
      assert TextsOnOneLine(init) by {
        forall k | 0 <= k < |init| ensures segs[k] == init[k] { }
      }
      PlsEntryLinesAreLines(init);
      PlsEntryIsLine(m, |segs|);
      AllLinesAppend(PlsEntryLines(init), [FileLine(m, |segs|), TitleLine(m, |segs|)]);
    }
  }

  /** One more segment adds its FileN and TitleN lines, N being its position from 1. */
  lemma PlsEntriesStep(segs: seq<MediaSegment>, i: nat)
    requires i < |segs|
    ensures PlsEntries(segs[..i + 1])
         == PlsEntries(segs[..i]) + FileLine(segs[i], i + 1) + "\n" + TitleLine(segs[i], i + 1) + "\n"
  {
    assert segs[..i + 1][..i] == segs[..i];
  }

  /** The segment at position k is numbered k + 1. */
  lemma {:induction false} PlsEntryLinesAt(segs: seq<MediaSegment>, k: nat)
    requires k < |segs|
    ensures PlsEntryLines(segs)[2 * k] == FileLine(segs[k], k + 1)
    ensures PlsEntryLines(segs)[2 * k + 1] == TitleLine(segs[k], k + 1)
    decreases |segs|
  {
    if k < |segs| - 1 {
      var init := segs[..|segs| - 1];
      PlsEntryLinesAt(init, k);
      assert init[k] == segs[k];
    }
  }

  function PlsLines(segs: seq<MediaSegment>): seq<String>
  {
    ["[playlist]", ""] + PlsEntryLines(segs) + ["", "NumberOfEntries=" + IntToString(|segs|)]
  }

  lemma GlueLastLines(x: String, c: String)
    ensures x + ("" + "\n" + c + "\n") == x + "\n" + c + "\n"
  {
  }

  lemma PlsIsUnlines(segs: seq<MediaSegment>)
    ensures Pls(segs) == Unlines(PlsLines(segs))
  {
    var entries := PlsEntryLines(segs);
    var n := IntToString(|segs|);
    var count := "NumberOfEntries=" + n;
    var head := "[playlist]\n\n";
    var e := PlsEntries(segs);
    PlsEntriesText(segs);
    UnlinesOfTwo("[playlist]", "");
    assert Unlines(["[playlist]", ""]) == head;
    UnlinesOfTwo("", count);
    UnlinesAppend(["[playlist]", ""], entries);
    UnlinesAppend(["[playlist]", ""] + entries, ["", count]);
    assert Unlines(PlsLines(segs)) == head + e + ("" + "\n" + count + "\n");
    GlueLastLines(head + e, count);
    ConcatAssoc(head + e + "\n", "NumberOfEntries=", n);
  }

  lemma PlsLinesAreLines(segs: seq<MediaSegment>)
    requires TextsOnOneLine(segs)
    ensures AllLines(PlsLines(segs))
  {
    var entries := PlsEntryLines(segs);
    var count := "NumberOfEntries=" + IntToString(|segs|);
    PlsEntryLinesAreLines(segs);
    PrintedIsLine(|segs|);
    ConcatIsLine("NumberOfEntries=", IntToString(|segs|));
    AllLinesAppend(["[playlist]", ""], entries);
    AllLinesAppend(["[playlist]", ""] + entries, ["", count]);
  }

  lemma PlsLinesShape(segs: seq<MediaSegment>)
    ensures var ls := PlsLines(segs);
      && |ls| == 2 * |segs| + 4
      && ls[0] == "[playlist]" && ls[1] == ""
      && (forall k :: 0 <= k < |segs| ==>
            ls[2 + 2 * k] == FileLine(segs[k], k + 1) && ls[3 + 2 * k] == TitleLine(segs[k], k + 1))
      && ls[|ls| - 2] == ""
      && ls[|ls| - 1] == "NumberOfEntries=" + IntToString(|segs|)
  {
    var ls := PlsLines(segs);
    forall k | 0 <= k < |segs|
      ensures ls[2 + 2 * k] == FileLine(segs[k], k + 1) && ls[3 + 2 * k] == TitleLine(segs[k], k + 1)
    {
      PlsEntryLinesAt(segs, k);
    }
  }

  /**
   * The PLS text read line by line: "[playlist]", a blank line, File1/Title1
   * up to FileN/TitleN in segment order, a blank line and NumberOfEntries=N,
   * N being the number of segments.
   */
  lemma PlsShape(segs: seq<MediaSegment>)
    requires TextsOnOneLine(segs)
    ensures var ls := Lines(Pls(segs));
      && |ls| == 2 * |segs| + 4
      && ls[0] == "[playlist]" && ls[1] == ""
      && (forall k :: 0 <= k < |segs| ==>
            ls[2 + 2 * k] == FileLine(segs[k], k + 1) && ls[3 + 2 * k] == TitleLine(segs[k], k + 1))
      && ls[|ls| - 2] == ""
      && ls[|ls| - 1] == "NumberOfEntries=" + IntToString(|segs|)
  {
    PlsIsUnlines(segs);
    PlsLinesAreLines(segs);
    LinesOfUnlines(PlsLines(segs));
    PlsLinesShape(segs);
  }

  // ---------------------------------------------------------------------
  // The playlist object
  // ---------------------------------------------------------------------

  class M3UPlaylist {
    var mediaSegments: seq<MediaSegment>
    var targetDuration: real
    var finalized: bool

    /** The total kept by the appends: targetDuration is the sum of the segments' durations. */
    ghost predicate Valid()
      reads this
    {
      targetDuration == TotalDuration(mediaSegments)
    }

    /** An empty playlist, finalized by default. */
    constructor ()
      ensures mediaSegments == [] && targetDuration == 0.0 && finalized
      ensures Valid()
    {
      mediaSegments := [];
      targetDuration := 0.0;
      finalized := true;
    }

    /** addMediaSegment: appends one segment and adds its duration, a missing one counting 0. */
    method AddMediaSegment(url: String, title: Option<String>, duration: Option<real>)
      modifies this
      ensures mediaSegments == old(mediaSegments) + [MediaSegment(url, title, duration)]
      ensures targetDuration == old(targetDuration) + DurationOf(duration)
      ensures finalized == old(finalized)
      ensures old(Valid()) ==> Valid()
    {
      var segment := MediaSegment(url, title, duration);
      mediaSegments := mediaSegments + [segment];
      targetDuration := targetDuration + (if duration.Some? then duration.value else 0.0);
      assert mediaSegments[..|mediaSegments| - 1] == old(mediaSegments);
    }

    /** The generated setter of the finalized flag. */
    method SetFinalized(f: bool)
      modifies this
      ensures finalized == f
      ensures mediaSegments == old(mediaSegments) && targetDuration == old(targetDuration)
    {
      finalized := f;
    }

    /** toString. */
    function ToString(show: DoublePrinter): String
      reads this
    {
      Render(mediaSegments, finalized, show)
    }

    /** getSimplePlaylist. */
    function SimplePlaylist(): String
      reads this
    {
      Simple(mediaSegments)
    }

    /** getPlsPlaylist: an indexed loop appending each segment's FileN and TitleN lines. */
    method PlsPlaylist() returns (r: String)
      ensures r == Pls(mediaSegments)
    {
      var sb := "[playlist]\n\n";
      var segments := mediaSegments;
      var segmentCount := |segments|;
      for i := 0 to segmentCount
        invariant sb == "[playlist]\n\n" + PlsEntries(segments[..i])
      {
        var segment := segments[i];
        var fileNum := i + 1;
        ghost var before := sb;
        PlsEntriesStep(segments, i);
        sb := sb + "File" + IntToString(fileNum) + "=" + segment.url + "\n";
        AppendKeyValueLine(before, "File", IntToString(fileNum), segment.url);
        ghost var middle := sb;
        sb := sb + "Title" + IntToString(fileNum) + "=" + Printed(segment.title) + "\n";
        AppendKeyValueLine(middle, "Title", IntToString(fileNum), Printed(segment.title));
        AppendTwoLines("[playlist]\n\n", PlsEntries(segments[..i]),
          FileLine(segment, fileNum), TitleLine(segment, fileNum));
      }
      assert segments[..segmentCount] == segments;
      sb := sb + "\n" + "NumberOfEntries=" + IntToString(segmentCount) + "\n";
      r := sb;
    }
  }

  /** A fresh playlist renders its fixed tags, no segments, and ENDLIST, since it starts finalized. */
  lemma EmptyPlaylistText(show: DoublePrinter)
    ensures Lines(Render([], true, show)) == HeadLines + [ENDLIST]
  {
    RenderLines([], true, show);
  }
}
