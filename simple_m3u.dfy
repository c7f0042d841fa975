/**
 * The per-event playlist of the older model (main/.../model/SimpleM3U.java):
 * one segment per event file, titled "<event title> - <part name>", a target
 * duration that is the sum of the files' durations, finalized from the start,
 * and the rendering of the older M3U class with the header on a line of its
 * own. Also the address a simple playlist is served under.
 *
 * The segment list and the sum are built by a loop (`CollectSegments`) and the
 * rendering by a loop appending each segment (`AppendSegments`); both are
 * proved against the functions `SegmentsFor`, `TotalDuration` and
 * `M3U.Document`, and `PlaylistReads` states what a player reads.
 */
module SimpleM3U {
  import opened Outcome
  import opened JavaString
  import opened HlsText
  import opened Domain
  import EF = EventFile
  import M3U

  /** What a playlist reads of an event file: its part, its address (null prints "null") and its duration. */
  datatype PlaylistFile = PlaylistFile(part: EF.EventPartIdentifier, url: Option<String>, duration: real)

  /** An address as appended to a StringBuilder. */
  function UrlText(url: Option<String>): String
  {
    if url.Some? then url.value else "null"
  }

  /** The title of the segment of one part: the event title, " - " and the part's name. */
  function PartTitle(eventTitle: String, part: EF.EventPartIdentifier): String
  {
    eventTitle + " - " + EF.Name(part)
  }

  function SegmentOf(eventTitle: String, f: PlaylistFile): M3U.MediaSegment
  {
    M3U.MediaSegment(UrlText(f.url), f.duration, Some(PartTitle(eventTitle, f.part)))
  }

  /** The segments of the event files, in the order of the files. */
  function SegmentsFor(eventTitle: String, files: seq<PlaylistFile>): (segs: seq<M3U.MediaSegment>)
    ensures |segs| == |files|
  {
    if |files| == 0 then []
    else SegmentsFor(eventTitle, files[..|files| - 1]) + [SegmentOf(eventTitle, files[|files| - 1])]
  }

  /** The sum of the files' durations. */
  function TotalDuration(files: seq<PlaylistFile>): real
  {
    if |files| == 0 then 0.0 else TotalDuration(files[..|files| - 1]) + files[|files| - 1].duration
  }

  /** Segment k is file k's address and duration, titled with the event title and file k's part. */
  lemma {:induction false} SegmentsForAt(eventTitle: String, files: seq<PlaylistFile>, k: nat)
    requires k < |files|
    ensures SegmentsFor(eventTitle, files)[k].url == UrlText(files[k].url)
    ensures SegmentsFor(eventTitle, files)[k].duration == files[k].duration
    ensures SegmentsFor(eventTitle, files)[k].title == Some(eventTitle + " - " + EF.Name(files[k].part))
    decreases |files|
  {
    if k < |files| - 1 {
      SegmentsForAt(eventTitle, files[..|files| - 1], k);
    }
  }

  /** The total of a concatenation is the sum of the totals. */
  lemma {:induction false} TotalDurationAppend(a: seq<PlaylistFile>, b: seq<PlaylistFile>)
    ensures TotalDuration(a + b) == TotalDuration(a) + TotalDuration(b)
    decreases |b|
  {
    if |b| == 0 {
      assert a + b == a;
    } else {
      assert (a + b)[..|a + b| - 1] == a + b[..|b| - 1];
      TotalDurationAppend(a, b[..|b| - 1]);
    }
  }

  /** With no negative durations the total is at least each file's duration. */
  lemma {:induction false} TotalDurationBounds(files: seq<PlaylistFile>, k: nat)
    requires forall i :: 0 <= i < |files| ==> files[i].duration >= 0.0
    requires k < |files|
    ensures files[k].duration <= TotalDuration(files)
    ensures 0.0 <= TotalDuration(files)
    decreases |files|
  {
    var init := files[..|files| - 1];
    if |init| > 0 {
      TotalDurationBounds(init, if k < |init| then k else 0);
    }
  }

  /** The forEach of the constructor: one segment per file and the running total. */
  method CollectSegments(eventTitle: String, files: seq<PlaylistFile>)
    returns (segs: seq<M3U.MediaSegment>, total: real)
    ensures segs == SegmentsFor(eventTitle, files)
    ensures total == TotalDuration(files)
  {
    segs := [];
    total := 0.0;
    for i := 0 to |files|
      invariant segs == SegmentsFor(eventTitle, files[..i])
      invariant total == TotalDuration(files[..i])
    {
      var f := files[i];
      var partTitle := eventTitle + " - " + EF.Name(f.part);
      segs := segs + [M3U.MediaSegment(UrlText(f.url), f.duration, Some(partTitle))];
      total := total + f.duration;
      assert files[..i + 1][..i] == files[..i];
    }
    assert files[..|files|] == files;
  }

  /** mediaSegments.forEach(sb::append): each segment's text after the head, in order. */
  method AppendSegments(head: String, segs: seq<M3U.MediaSegment>, show: M3U.NumberPrinter) returns (r: String)
    ensures r == head + M3U.SegmentsText(segs, show)
  {
    r := head;
    for i := 0 to |segs|
      invariant r == head + M3U.SegmentsText(segs[..i], show)
    {
      r := r + M3U.SegmentText(segs[i], show);
      assert segs[..i + 1][..i] == segs[..i];
      ConcatAssoc(head, M3U.SegmentsText(segs[..i], show), M3U.SegmentText(segs[i], show));
    }
    assert segs[..|segs|] == segs;
  }

  // ---------------------------------------------------------------------
  // What a player reads
  // ---------------------------------------------------------------------

  lemma NameIsLine(p: EF.EventPartIdentifier)
    ensures IsLine(EF.Name(p))
  {
  }

  /** Every file's address and printed duration fit on one line. */
  predicate FilesOnOneLine(files: seq<PlaylistFile>, show: M3U.NumberPrinter)
  {
    forall k :: 0 <= k < |files| ==> IsLine(UrlText(files[k].url)) && IsLine(show(files[k].duration))
  }

  predicate FileUrlsAreUris(files: seq<PlaylistFile>)
  {
    forall k :: 0 <= k < |files| ==> !IsTagLine(UrlText(files[k].url))
  }

  lemma SegmentsOnOneLine(eventTitle: String, files: seq<PlaylistFile>, show: M3U.NumberPrinter)
    requires IsLine(eventTitle) && FilesOnOneLine(files, show) && FileUrlsAreUris(files)
    ensures M3U.OnOneLine(SegmentsFor(eventTitle, files), show)
    ensures M3U.UrlsAreUris(SegmentsFor(eventTitle, files))
  {
    var segs := SegmentsFor(eventTitle, files);
    forall k | 0 <= k < |segs|
      ensures IsLine(segs[k].url) && IsLine(show(segs[k].duration))
      ensures segs[k].title.Some? ==> IsLine(segs[k].title.value)
      ensures !IsTagLine(segs[k].url)
    {
      SegmentsForAt(eventTitle, files, k);
      NameIsLine(files[k].part);
      ConcatIsLine(eventTitle, " - ");
      ConcatIsLine(eventTitle + " - ", EF.Name(files[k].part));
    }
  }

  /** The rendering of the playlist built from an event's files. */
  function EventPlaylist(eventTitle: String, date: Option<DateTime>, files: seq<PlaylistFile>,
                         show: M3U.NumberPrinter, showTime: M3U.DateTimePrinter): String
  {
    M3U.Document(M3U.CorrectedHead(show(TotalDuration(files)), M3U.TimeText(date, showTime)),
                 SegmentsFor(eventTitle, files), show, true)
  }

  /**
   * A player reads the seven tags, TARGETDURATION carrying the total of the
   * files' durations, then for each file in order an EXTINF line with its
   * duration and "<event title> - <part name>" and a line with its address,
   * and ENDLIST last.
   */
  lemma PlaylistReads(eventTitle: String, date: Option<DateTime>, files: seq<PlaylistFile>,
                      show: M3U.NumberPrinter, showTime: M3U.DateTimePrinter)
    requires IsLine(eventTitle) && IsLine(show(TotalDuration(files))) && IsLine(M3U.TimeText(date, showTime))
    requires FilesOnOneLine(files, show) && FileUrlsAreUris(files)
    ensures var ls := Lines(EventPlaylist(eventTitle, date, files, show, showTime));
      && |ls| == 8 + 2 * |files|
      && ls[0] == HEADER
      && ls[4] == TARGET_DURATION + show(TotalDuration(files))
      && (forall k :: 0 <= k < |files| ==>
            && ls[7 + 2 * k] == INF + show(files[k].duration) + "," + (eventTitle + " - " + EF.Name(files[k].part))
            && ls[8 + 2 * k] == UrlText(files[k].url))
      && ls[|ls| - 1] == ENDLIST
  {
    var segs := SegmentsFor(eventTitle, files);
    forall k | 0 <= k < |files|
      ensures M3U.InfLine(segs[k], show) == INF + show(files[k].duration) + "," + (eventTitle + " - " + EF.Name(files[k].part))
      ensures segs[k].url == UrlText(files[k].url)
    {
      SegmentsForAt(eventTitle, files, k);
    }
    SegmentsOnOneLine(eventTitle, files, show);
    M3U.CorrectedReads(show(TotalDuration(files)), M3U.TimeText(date, showTime), segs, show, true);
  }

  // ---------------------------------------------------------------------
  // The playlist object
  // ---------------------------------------------------------------------

  class SimpleM3U {
    const eventTitle: String
    const dateTime: Option<DateTime>
    var mediaSegments: seq<M3U.MediaSegment>
    const targetDuration: real
    var finalized: bool

    /** new SimpleM3U(event, eventFiles): one segment per file, the summed duration, finalized. */
    constructor (title: String, date: Option<DateTime>, eventFiles: seq<PlaylistFile>)
      ensures eventTitle == title && dateTime == date
      ensures mediaSegments == SegmentsFor(title, eventFiles)
      ensures targetDuration == TotalDuration(eventFiles)
      ensures finalized
    {
      var segs, total := CollectSegments(title, eventFiles);
      eventTitle := title;
      dateTime := date;
      mediaSegments := segs;
      targetDuration := total;
      finalized := true;
    }

    /** getPlaylistAsString: the corrected head, each segment in order, ENDLIST when finalized. */
    method PlaylistAsString(show: M3U.NumberPrinter, showTime: M3U.DateTimePrinter) returns (r: String)
      ensures r == M3U.Document(M3U.CorrectedHead(show(targetDuration), M3U.TimeText(dateTime, showTime)),
                                mediaSegments, show, finalized)
    {
      var head := M3U.CorrectedHead(show(targetDuration), M3U.TimeText(dateTime, showTime));
      r := AppendSegments(head, mediaSegments, show);
      if finalized {
        r := r + ENDLIST;
      }
    }
  }

  // ---------------------------------------------------------------------
  // The address of a simple playlist
  // ---------------------------------------------------------------------

  /** What the address reads of a feed file source; the resolution is given by its name. */
  datatype FeedSource = FeedSource(
    eventFileSrcId: Option<int>,
    resolution: Option<String>,
    channel: String,
    languages: seq<String>)

  /** A single-character String.replace: each c becomes d, the length is kept. */
  lemma {:induction false} ReplaceCharMaps(s: String, c: char, d: char)
    ensures |Replace(s, [c], [d])| == |s|
    ensures forall k :: 0 <= k < |s| ==> Replace(s, [c], [d])[k] == (if s[k] == c then d else s[k])
    decreases |s|
  {
    var res := Replace(s, [c], [d]);
    match IndexOfFrom(s, [c], 0)
    case None =>
      forall k | 0 <= k < |s|
        ensures s[k] != c
      {
        assert !OccursAt(s, [c], k);
        assert s[k..k + 1] == [s[k]];
      }
    case Some(i) =>
      var rest := s[i + 1..];
      ReplaceCharMaps(rest, c, d);
      var tail := Replace(rest, [c], [d]);
      assert res == s[..i] + [d] + tail;
      forall k | 0 <= k < |s|
        ensures res[k] == (if s[k] == c then d else s[k])
      {
        if k < i {
          assert !OccursAt(s, [c], k);
          assert s[k..k + 1] == [s[k]];
        } else if k == i {
          assert s[i..i + 1] == [c];
        } else {
          assert res[k] == tail[k - i - 1];
          assert rest[k - i - 1] == s[k];
        }
      }
  }

  /** The channel part of the address: blanks become '_', then ASCII letters are lowered. */
  function Slug(channel: String): (r: String)
    ensures |r| == |channel|
    ensures forall k :: 0 <= k < |channel| ==> r[k] == LowerChar(if channel[k] == ' ' then '_' else channel[k])
  {
    ReplaceCharMaps(channel, ' ', '_');
    Lower(Replace(channel, " ", "_"))
  }

  /** The first language lowered, or "null" when there is none. */
  function PrimaryLanguage(languages: seq<String>): String
  {
    if |languages| > 0 then Lower(languages[0]) else "null"
  }

  /** The identifier as %s prints a Long: the number, or "null". */
  function IdText(id: Option<int>): String
  {
    if id.Some? then IntToString(id.value) else "null"
  }

  /**
   * generateSimplePlaylistUrl: "<id>/<resolution>-<channel>-<language>.<ext>".
   * A source without a resolution throws a NullPointerException.
   */
  function SimplePlaylistUrl(src: FeedSource, ext: String): (r: Result<String>)
    ensures r.Fail? <==> src.resolution.None?
    ensures r.Fail? ==> r.error == NullPointer
  {
    if src.resolution.None? then Fail(NullPointer)
    else
      var variantId := src.resolution.value + "-" + Slug(src.channel) + "-" + PrimaryLanguage(src.languages);
      Ok(IdText(src.eventFileSrcId) + "/" + variantId + "." + ext)
  }

  /** The channel part of an address holds no blank and no upper-case ASCII letter. */
  lemma SlugIsClean(channel: String)
    ensures forall k :: 0 <= k < |Slug(channel)| ==> Slug(channel)[k] != ' ' && !('A' <= Slug(channel)[k] <= 'Z')
  {
  }

  /** Making a slug of a slug changes nothing. */
  lemma SlugIdempotent(channel: String)
    ensures Slug(Slug(channel)) == Slug(channel)
  {
    var s := Slug(channel);
    assert forall k :: 0 <= k < |s| ==> Slug(s)[k] == s[k];
  }

  /**
   * The address depends on the channel only through its slug: two channels
   * spelled with different case or with '_' for ' ' share one address.
   */
  lemma UrlDependsOnSlug(src: FeedSource, ext: String)
    ensures SimplePlaylistUrl(src, ext) == SimplePlaylistUrl(src.(channel := Slug(src.channel)), ext)
  {
    SlugIdempotent(src.channel);
  }

  /** The address starts with the identifier and '/', and ends with '.' and the extension. */
  lemma UrlShape(src: FeedSource, ext: String)
    requires src.resolution.Some?
    ensures var url := SimplePlaylistUrl(src, ext).value;
      && StartsWith(url, IdText(src.eventFileSrcId) + "/")
      && |url| >= |ext| + 1
      && url[|url| - |ext| - 1..] == "." + ext
  {
  }

  /** A source without languages is served under a variant ending in "-null". */
  lemma NoLanguageIsNull(src: FeedSource, ext: String)
    requires src.resolution.Some? && |src.languages| == 0
    ensures var url := SimplePlaylistUrl(src, ext).value;
      && |url| >= |ext| + 6
      && url[|url| - |ext| - 6..] == "-null." + ext
  {
  }
}
