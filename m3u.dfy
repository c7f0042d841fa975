/**
 * The older media playlist class (main/.../model/M3U.java): setters for the
 * target duration, the programme time and the finalized flag, appended media
 * segments, and a rendering whose header line is glued to the next tag.
 *
 * The rendering is specified by the lines a player reads. Its head is written
 * in two forms: `AsWrittenHead`, as the class writes it, and `CorrectedHead`,
 * with the header on a line of its own as section 4.3.1.1 of RFC 8216
 * requires; the simple and variant playlists use the corrected head.
 */
module M3U {
  import opened Outcome
  import opened JavaString
  import opened HlsText
  import opened Domain

  /** Float.toString / Double.toString, the printer of durations; its digits are not modelled. */
  type NumberPrinter = real -> String

  /** LocalDateTime.toString. */
  type DateTimePrinter = DateTime -> String

  /** One record: the media URL, its duration in seconds and an optional title. */
  datatype MediaSegment = MediaSegment(url: String, duration: real, title: Option<String>)

  /** Math.ceil on a real: the least integer not below x. */
  function Ceil(x: real): (r: int)
    ensures (r - 1) as real < x <= r as real
  {
    if x == x.Floor as real then x.Floor else x.Floor + 1
  }

  /** The narrowing cast (int) of a double: values beyond the int range saturate. */
  function ToInt(n: int): (r: int)
    ensures INT_MIN <= r <= INT_MAX
    ensures INT_MIN <= n <= INT_MAX ==> r == n
    ensures n > INT_MAX ==> r == INT_MAX
    ensures n < INT_MIN ==> r == INT_MIN
  {
    if n > INT_MAX then INT_MAX else if n < INT_MIN then INT_MIN else n
  }

  /**
   * getTargetDuration: a hundredth of the stored duration rounded up, cast to
   * int. Within the int range it is the least whole number n with 100 * n at
   * least the stored duration.
   */
  function TargetDurationSeconds(targetDuration: real): (r: int)
    ensures INT_MIN <= r <= INT_MAX
    ensures INT_MIN < r < INT_MAX ==>
      targetDuration <= 100.0 * r as real && 100.0 * (r - 1) as real < targetDuration
  {
    ToInt(Ceil(targetDuration / 100.0))
  }

  /** The programme time as appended to a StringBuilder: a missing one prints "null". */
  function TimeText(t: Option<DateTime>, showTime: DateTimePrinter): String
  {
    if t.Some? then showTime(t.value) else "null"
  }

  // ---------------------------------------------------------------------
  // The rendering
  // ---------------------------------------------------------------------

  /** A segment: INF, the duration, ',', the title when there is one, then the URL on its own line. */
  function SegmentText(m: MediaSegment, show: NumberPrinter): String
  {
    INF + show(m.duration) + "," + (if m.title.Some? then m.title.value else "") + "\n" + m.url + "\n"
  }

  function SegmentsText(segs: seq<MediaSegment>, show: NumberPrinter): String
  {
    if |segs| == 0 then []
    else SegmentsText(segs[..|segs| - 1], show) + SegmentText(segs[|segs| - 1], show)
  }

  /** The head as getPlaylistAsString writes it: no line break between HEADER and PLAYLIST-TYPE. */
  function AsWrittenHead(target: String, time: String): String
  {
    HEADER + PLAYLIST_TYPE + "\n" + VERSION + "\n" + ALLOW_CACHE + "\n"
    + TARGET_DURATION + target + "\n" + PROGRAM_TIME + time + "\n"
    + MEDIA_SEQUENCE + IntToString(0) + "\n"
  }

  /** The head with HEADER on a line of its own. */
  function CorrectedHead(target: String, time: String): String
  {
    HEADER + "\n" + PLAYLIST_TYPE + "\n" + VERSION + "\n" + ALLOW_CACHE + "\n"
    + TARGET_DURATION + target + "\n" + PROGRAM_TIME + time + "\n"
    + MEDIA_SEQUENCE + IntToString(0) + "\n"
  }

  /** A head, the segments in order, and ENDLIST, without a line break, when finalized. */
  function Document(head: String, segs: seq<MediaSegment>, show: NumberPrinter, finalized: bool): String
  {
    head + SegmentsText(segs, show) + (if finalized then ENDLIST else "")
  }

  // The reader's view.

  /** The EXTINF line of a segment; the title is left out when there is none. */
  function InfLine(m: MediaSegment, show: NumberPrinter): String
  {
    INF + show(m.duration) + "," + (if m.title.Some? then m.title.value else "")
  }

  function SegmentLines(segs: seq<MediaSegment>, show: NumberPrinter): (ls: seq<String>)
    ensures |ls| == 2 * |segs|
  {
    if |segs| == 0 then []
    else
      var m := segs[|segs| - 1];
      SegmentLines(segs[..|segs| - 1], show) + [InfLine(m, show), m.url]
  }

  /** The tag lines of a correct head, in order. */
  function TagLines(target: String, time: String): seq<String>
  {
    [HEADER, PLAYLIST_TYPE, VERSION, ALLOW_CACHE, TARGET_DURATION + target, PROGRAM_TIME + time,
     MEDIA_SEQUENCE + "0"]
  }

  /** The tag lines as written: the first two are one line. */
  function AsWrittenTagLines(target: String, time: String): seq<String>
  {
    [HEADER + PLAYLIST_TYPE, VERSION, ALLOW_CACHE, TARGET_DURATION + target, PROGRAM_TIME + time,
     MEDIA_SEQUENCE + "0"]
  }

  function DocumentLines(head: seq<String>, segs: seq<MediaSegment>, show: NumberPrinter, finalized: bool): seq<String>
  {
    head + SegmentLines(segs, show) + (if finalized then [ENDLIST] else [])
  }

  predicate OnOneLine(segs: seq<MediaSegment>, show: NumberPrinter)
  {
    forall k :: 0 <= k < |segs| ==>
      IsLine(segs[k].url) && IsLine(show(segs[k].duration))
      && (segs[k].title.Some? ==> IsLine(segs[k].title.value))
  }

  predicate UrlsAreUris(segs: seq<MediaSegment>)
  {
    forall k :: 0 <= k < |segs| ==> !IsTagLine(segs[k].url)
  }

  lemma SegmentTextLines(m: MediaSegment, show: NumberPrinter)
    ensures SegmentText(m, show) == Unlines([InfLine(m, show), m.url])
  {
    UnlinesOfTwo(InfLine(m, show), m.url);
  }

  lemma {:induction false} SegmentsTextLines(segs: seq<MediaSegment>, show: NumberPrinter)
    ensures SegmentsText(segs, show) == Unlines(SegmentLines(segs, show))
    decreases |segs|
  {
    if |segs| > 0 {
      var init := segs[..|segs| - 1];
      var m := segs[|segs| - 1];
      SegmentsTextLines(init, show);
      SegmentTextLines(m, show);
      UnlinesAppend(SegmentLines(init, show), [InfLine(m, show), m.url]);
    }
  }

  lemma {:induction false} SegmentLinesAreLines(segs: seq<MediaSegment>, show: NumberPrinter)
    requires OnOneLine(segs, show)
    ensures AllLines(SegmentLines(segs, show))
    decreases |segs|
  {
    if |segs| > 0 {
      var init := segs[..|segs| - 1];
      var m := segs[|segs| - 1];
      assert OnOneLine(init, show) by {
        forall k | 0 <= k < |init| ensures segs[k] == init[k] { }
      }
      SegmentLinesAreLines(init, show);
      var t := if m.title.Some? then m.title.value else "";
      ConcatIsLine(INF, show(m.duration));
      ConcatIsLine(INF + show(m.duration), ",");
      ConcatIsLine(INF + show(m.duration) + ",", t);
      AllLinesAppend(SegmentLines(init, show), [InfLine(m, show), m.url]);
    }
  }

  /** The k-th segment gives the (2k)-th and (2k+1)-th segment lines: insertion order is kept. */
  lemma {:induction false} SegmentLinesAt(segs: seq<MediaSegment>, show: NumberPrinter, k: nat)
    requires k < |segs|
    ensures SegmentLines(segs, show)[2 * k] == InfLine(segs[k], show)
    ensures SegmentLines(segs, show)[2 * k + 1] == segs[k].url
    decreases |segs|
  {
    if k < |segs| - 1 {
      var init := segs[..|segs| - 1];
      SegmentLinesAt(init, show, k);
      assert init[k] == segs[k];
    }
  }

  lemma AsWrittenHeadText(target: String, time: String)
    ensures AsWrittenHead(target, time) == Unlines(AsWrittenTagLines(target, time))
  {
    assert IntToString(0) == "0";
    UnlinesOfSix(HEADER + PLAYLIST_TYPE, VERSION, ALLOW_CACHE, TARGET_DURATION + target,
                 PROGRAM_TIME + time, MEDIA_SEQUENCE + "0");
    assert HEADER + PLAYLIST_TYPE + "\n" == (HEADER + PLAYLIST_TYPE) + "\n";
  }

  lemma UnlinesOfSeven(a: String, b: String, c: String, d: String, e: String, f: String, g: String)
    ensures Unlines([a, b, c, d, e, f, g])
         == a + "\n" + b + "\n" + c + "\n" + d + "\n" + e + "\n" + f + "\n" + g + "\n"
  {
    UnlinesOfSix(a, b, c, d, e, f);
    UnlinesLast([a, b, c, d, e, f], g);
    assert [a, b, c, d, e, f] + [g] == [a, b, c, d, e, f, g];
  }

  lemma CorrectedHeadText(target: String, time: String)
    ensures CorrectedHead(target, time) == Unlines(TagLines(target, time))
  {
    assert IntToString(0) == "0";
    UnlinesOfSeven(HEADER, PLAYLIST_TYPE, VERSION, ALLOW_CACHE, TARGET_DURATION + target,
                   PROGRAM_TIME + time, MEDIA_SEQUENCE + "0");
  }

  lemma HeadLinesAreLines(target: String, time: String)
    requires IsLine(target) && IsLine(time)
    ensures AllLines(TagLines(target, time)) && AllLines(AsWrittenTagLines(target, time))
  {
    assert IsLine(HEADER) && IsLine(PLAYLIST_TYPE) && IsLine(VERSION) && IsLine(ALLOW_CACHE);
    assert IsLine(MEDIA_SEQUENCE + "0");
    ConcatIsLine(HEADER, PLAYLIST_TYPE);
    ConcatIsLine(TARGET_DURATION, target);
    ConcatIsLine(PROGRAM_TIME, time);
  }

  lemma DocumentText(head: seq<String>, segs: seq<MediaSegment>, show: NumberPrinter, finalized: bool)
    ensures Document(Unlines(head), segs, show, finalized)
         == Unlines(head + SegmentLines(segs, show)) + (if finalized then ENDLIST else "")
  {
    SegmentsTextLines(segs, show);
    UnlinesAppend(head, SegmentLines(segs, show));
  }

  /** Any head of one-line tags, then the segments, then ENDLIST when finalized: the lines a player reads. */
  lemma DocumentReads(head: seq<String>, segs: seq<MediaSegment>, show: NumberPrinter, finalized: bool)
    requires AllLines(head) && OnOneLine(segs, show)
    ensures Lines(Document(Unlines(head), segs, show, finalized)) == DocumentLines(head, segs, show, finalized)
  {
    DocumentText(head, segs, show, finalized);
    SegmentLinesAreLines(segs, show);
    AllLinesAppend(head, SegmentLines(segs, show));
    if finalized {
      var all := head + SegmentLines(segs, show);
      assert IsLine(ENDLIST) && |ENDLIST| > 0;
      assert Document(Unlines(head), segs, show, finalized) == Unlines(all) + ENDLIST;
      LinesOfUnlinesThen(all, ENDLIST);
      assert DocumentLines(head, segs, show, finalized) == all + [ENDLIST];
    } else {
      var all := head + SegmentLines(segs, show);
      assert Document(Unlines(head), segs, show, finalized) == Unlines(all);
      LinesOfUnlines(all);
      assert DocumentLines(head, segs, show, finalized) == all;
    }
  }

  /** The order of a document's lines. */
  lemma DocumentLinesShape(head: seq<String>, segs: seq<MediaSegment>, show: NumberPrinter, finalized: bool)
    requires UrlsAreUris(segs) && (|segs| == 0 ==> |head| > 0 && head[|head| - 1] != ENDLIST)
    ensures var ls := DocumentLines(head, segs, show, finalized);
      && |ls| == |head| + 2 * |segs| + (if finalized then 1 else 0)
      && ls[..|head|] == head
      && (forall k :: 0 <= k < |segs| ==>
            ls[|head| + 2 * k] == InfLine(segs[k], show) && ls[|head| + 2 * k + 1] == segs[k].url)
      && (ls[|ls| - 1] == ENDLIST <==> finalized)
  {
    var ls := DocumentLines(head, segs, show, finalized);
    assert ls[..|head|] == head;
    forall k | 0 <= k < |segs|
      ensures ls[|head| + 2 * k] == InfLine(segs[k], show) && ls[|head| + 2 * k + 1] == segs[k].url
    {
      SegmentLinesAt(segs, show, k);
    }
    if !finalized && |segs| > 0 {
      SegmentLinesAt(segs, show, |segs| - 1);
      assert ls[|ls| - 1] == segs[|segs| - 1].url;
      assert !IsTagLine(segs[|segs| - 1].url);
    }
  }

  lemma AsWrittenReads(target: String, time: String, segs: seq<MediaSegment>, show: NumberPrinter,
                       finalized: bool)
    requires IsLine(target) && IsLine(time) && OnOneLine(segs, show)
    ensures Lines(Document(AsWrittenHead(target, time), segs, show, finalized))
         == DocumentLines(AsWrittenTagLines(target, time), segs, show, finalized)
  {
    AsWrittenHeadText(target, time);
    HeadLinesAreLines(target, time);
    DocumentReads(AsWrittenTagLines(target, time), segs, show, finalized);
  }

  lemma CorrectedReadsLines(target: String, time: String, segs: seq<MediaSegment>, show: NumberPrinter,
                            finalized: bool)
    requires IsLine(target) && IsLine(time) && OnOneLine(segs, show)
    ensures Lines(Document(CorrectedHead(target, time), segs, show, finalized))
         == DocumentLines(TagLines(target, time), segs, show, finalized)
  {
    CorrectedHeadText(target, time);
    HeadLinesAreLines(target, time);
    DocumentReads(TagLines(target, time), segs, show, finalized);
  }

  lemma GluedFirstLine(target: String, time: String)
    ensures AsWrittenTagLines(target, time)[0] == HEADER + PLAYLIST_TYPE
    ensures AsWrittenTagLines(target, time)[0] != HEADER
  {
    assert |HEADER + PLAYLIST_TYPE| == |HEADER| + |PLAYLIST_TYPE|;
  }

  /**
   * As written, the first line a player reads is HEADER and PLAYLIST-TYPE run
   * together ("#EXTM3U#EXT-X-PLAYLIST-TYPE:EVENT"), not the "#EXTM3U" line that
   * section 4.3.1.1 of RFC 8216 requires.
   */
  lemma AsWrittenHeaderGlued(target: String, time: String, segs: seq<MediaSegment>, show: NumberPrinter,
                             finalized: bool)
    requires IsLine(target) && IsLine(time) && OnOneLine(segs, show)
    ensures var ls := Lines(Document(AsWrittenHead(target, time), segs, show, finalized));
      && ls[0] == HEADER + PLAYLIST_TYPE
      && ls[0] != HEADER
  {
    AsWrittenReads(target, time, segs, show, finalized);
    GluedFirstLine(target, time);
    var head := AsWrittenTagLines(target, time);
    assert DocumentLines(head, segs, show, finalized)[0] == head[0];
  }

  /**
   * With the corrected head a player reads HEADER first, then PLAYLIST-TYPE,
   * VERSION, ALLOW-CACHE, TARGETDURATION, PROGRAM-DATE-TIME and
   * MEDIA-SEQUENCE:0, then each segment's EXTINF line and URL in insertion
   * order, and ENDLIST last exactly when finalized.
   */
  lemma CorrectedReads(target: String, time: String, segs: seq<MediaSegment>, show: NumberPrinter,
                       finalized: bool)
    requires IsLine(target) && IsLine(time) && OnOneLine(segs, show) && UrlsAreUris(segs)
    ensures var ls := Lines(Document(CorrectedHead(target, time), segs, show, finalized));
      && |ls| == 7 + 2 * |segs| + (if finalized then 1 else 0)
      && ls[..7] == TagLines(target, time)
      && ls[0] == HEADER
      && ls[4] == TARGET_DURATION + target
      && ls[6] == MEDIA_SEQUENCE + "0"
      && (forall k :: 0 <= k < |segs| ==> ls[7 + 2 * k] == InfLine(segs[k], show) && ls[8 + 2 * k] == segs[k].url)
      && (ls[|ls| - 1] == ENDLIST <==> finalized)
  {
    CorrectedReadsLines(target, time, segs, show, finalized);
    var tags := TagLines(target, time);
    assert |MEDIA_SEQUENCE + "0"| != |ENDLIST|;
    DocumentLinesShape(tags, segs, show, finalized);
  }

  lemma SplitHead(tags: seq<String>, written: seq<String>, tail: seq<String>)
    requires |tags| >= 2 && |written| >= 1
    requires tags[0] + tags[1] == written[0] && tags[2..] == written[1..]
    ensures (tags + tail)[0] + (tags + tail)[1] == (written + tail)[0]
    ensures (tags + tail)[2..] == (written + tail)[1..]
  {
    assert (tags + tail)[2..] == tags[2..] + tail;
    assert (written + tail)[1..] == written[1..] + tail;
  }

  lemma TagLinesSplit(target: String, time: String)
    ensures TagLines(target, time)[0] + TagLines(target, time)[1] == AsWrittenTagLines(target, time)[0]
    ensures TagLines(target, time)[2..] == AsWrittenTagLines(target, time)[1..]
  {
  }

  /** The correction only splits the glued first line in two; every later line is as written. */
  lemma CorrectionSplitsFirstLine(target: String, time: String, segs: seq<MediaSegment>, show: NumberPrinter,
                                  finalized: bool)
    requires IsLine(target) && IsLine(time) && OnOneLine(segs, show)
    ensures var fixed := Lines(Document(CorrectedHead(target, time), segs, show, finalized));
      var written := Lines(Document(AsWrittenHead(target, time), segs, show, finalized));
      && |fixed| >= 2 && |written| >= 1
      && fixed[0] + fixed[1] == written[0]
      && fixed[2..] == written[1..]
  {
    CorrectedReadsLines(target, time, segs, show, finalized);
    AsWrittenReads(target, time, segs, show, finalized);
    var tags := TagLines(target, time);
    var written := AsWrittenTagLines(target, time);
    TagLinesSplit(target, time);
    var tail := SegmentLines(segs, show) + (if finalized then [ENDLIST] else []);
    assert DocumentLines(tags, segs, show, finalized) == tags + tail;
    assert DocumentLines(written, segs, show, finalized) == written + tail;
    SplitHead(tags, written, tail);
  }

  // ---------------------------------------------------------------------
  // The playlist object
  // ---------------------------------------------------------------------

  class M3U {
    var targetDuration: real
    var programDateTime: Option<DateTime>
    var mediaSegments: seq<MediaSegment>
    var finalized: bool

    /** A new playlist: no segments, no programme time, not finalized. */
    constructor ()
      ensures targetDuration == 0.0 && programDateTime.None? && mediaSegments == [] && !finalized
    {
      targetDuration := 0.0;
      programDateTime := None;
      mediaSegments := [];
      finalized := false;
    }

    /** setTargetDuration. */
    method SetTargetDuration(duration: real)
      modifies this
      ensures targetDuration == duration
      ensures programDateTime == old(programDateTime) && mediaSegments == old(mediaSegments)
      ensures finalized == old(finalized)
    {
      targetDuration := duration;
    }

    /** setProgramTime. */
    method SetProgramTime(t: Option<DateTime>)
      modifies this
      ensures programDateTime == t
      ensures targetDuration == old(targetDuration) && mediaSegments == old(mediaSegments)
      ensures finalized == old(finalized)
    {
      programDateTime := t;
    }

    /** addMediaSegment: segments are kept in the order they are added. */
    method AddMediaSegment(segment: MediaSegment)
      modifies this
      ensures mediaSegments == old(mediaSegments) + [segment]
      ensures targetDuration == old(targetDuration) && programDateTime == old(programDateTime)
      ensures finalized == old(finalized)
    {
      mediaSegments := mediaSegments + [segment];
    }

    /** setFinalized. */
    method SetFinalized(f: bool)
      modifies this
      ensures finalized == f
      ensures targetDuration == old(targetDuration) && programDateTime == old(programDateTime)
      ensures mediaSegments == old(mediaSegments)
    {
      finalized := f;
    }

    /** getTargetDuration. */
    function GetTargetDuration(): int
      reads this
    {
      TargetDurationSeconds(targetDuration)
    }

    /** getPlaylistAsString: the head, then a loop appending each segment, then ENDLIST when finalized. */
    method PlaylistAsString(show: NumberPrinter, showTime: DateTimePrinter) returns (r: String)
      ensures r == Document(AsWrittenHead(IntToString(GetTargetDuration()), TimeText(programDateTime, showTime)),
                            mediaSegments, show, finalized)
    {
      var head := AsWrittenHead(IntToString(GetTargetDuration()), TimeText(programDateTime, showTime));
      var sb := head;
      var segments := mediaSegments;
      for i := 0 to |segments|
        invariant sb == head + SegmentsText(segments[..i], show)
      {
        var segment := segments[i];
        ghost var before := sb;
        sb := sb + INF + show(segment.duration) + ",";
        if segment.title.Some? {
          sb := sb + segment.title.value;
        }
        sb := sb + "\n" + segment.url + "\n";
        AppendSegment(before, show(segment.duration), if segment.title.Some? then segment.title.value else "",
                      segment.url);
        assert segments[..i + 1][..i] == segments[..i];
        ConcatAssoc(head, SegmentsText(segments[..i], show), SegmentText(segment, show));
      }
      assert segments[..|segments|] == segments;
      if finalized {
        sb := sb + ENDLIST;
      }
      r := sb;
    }
  }

  lemma AppendSegment(x: String, d: String, t: String, u: String)
    ensures x + INF + d + "," + t + "\n" + u + "\n" == x + (INF + d + "," + t + "\n" + u + "\n")
    ensures x + INF + d + "," + "\n" + u + "\n" == x + (INF + d + "," + "" + "\n" + u + "\n")
  {
  }
}
