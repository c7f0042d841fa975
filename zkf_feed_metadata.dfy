/**
 * The metadata parser nested in the ZKFootball Blogger post parser
 * (src/main/java/self/me/matchday/feed/blogger/zkfootball/ZKFEventFileSourceParser.java,
 * class ZKFMetadataParser) and the patterns of its ZKPatterns holder.
 * fromElements runs a new parser over the metadata elements and copies its
 * fields into a new file source. Unlike the plugin's parsers, every element
 * must carry one of the five tags: any other text throws
 * InvalidBloggerPostException. The size is kept as the cleaned text.
 */
module ZKFFeedMetadata {
  import opened Outcome
  import opened JavaString
  import opened Regex
  import opened EventFile
  import opened EventFileSource
  import opened ZKFMetadata

  // ---------------------------------------------------------------------
  // ZKPatterns: the format and bitrate patterns, all CASE_INSENSITIVE,
  // which folds ASCII letters only
  // ---------------------------------------------------------------------

  /** DEFAULT_BITRATE: 4 megabits. */
  const DefaultBitrate: int := 4_000_000

  /** The lower-cased text contains the lower-case word: a case-insensitive find of a plain word. */
  predicate FindsIgnoreCase(s: String, word: String)
  {
    Contains(Lower(s), word)
  }

  /** resolutionPattern "(720|1080)[pi]". */
  predicate IsResolutionText(s: String)
  {
    FindsIgnoreCase(s, "720p") || FindsIgnoreCase(s, "720i") || FindsIgnoreCase(s, "1080p") || FindsIgnoreCase(s, "1080i")
  }

  /**
   * Group 1 of frameRatePattern "(\d+)(fps)" at its first find: the
   * leftmost digit run, taken whole, that "fps" follows in any case. A
   * shorter run cannot match, since a digit, not an "f", follows it.
   */
  function FrameRateFrom(s: String, i: nat): (r: Option<String>)
    ensures r.Some? ==> |r.value| > 0 && AllDigits(r.value)
    decreases |s| - i
  {
    if i >= |s| then None
    else
      var n := RunLength(IsDigit, s, i);
      if n > 0 && OccursAt(Lower(s), "fps", i + n) then Some(s[i..i + n])
      else FrameRateFrom(s, i + 1)
  }

  /** containerPattern "mkv|ts". */
  predicate IsContainerText(s: String)
  {
    FindsIgnoreCase(s, "mkv") || FindsIgnoreCase(s, "ts")
  }

  /** The ZKPatterns holder as the format and bitrate readers use it. */
  const FeedPatterns: ZKFPatterns :=
    ZKFPatterns(IsResolutionText, s => FrameRateFrom(s, 0), IsContainerText,
                s => FindsIgnoreCase(s, "mb/sec"), s => FindsIgnoreCase(s, "kbps"), DefaultBitrate)

  /** A digit run directly followed by "fps", in any case, is the frame rate's group. */
  lemma FrameRateOfDigits(d: String, unit: String)
    requires |d| > 0 && AllDigits(d) && Lower(unit) == "fps"
    ensures FrameRateFrom(d + unit, 0) == Some(d)
  {
    var s := d + unit;
    RunLengthExact(IsDigit, s, 0, |d|);
    assert Lower(s)[|d|..|d| + 3] == Lower(unit);
    assert s[0..|d|] == d;
  }

  /** The bitrate the feed parser reads: never zero, and a long. */
  lemma FeedBitrateBounds(previous: int, data: String)
    requires 0 <= previous <= LONG_MAX
    ensures 0 < BitrateOf(previous, data, FeedPatterns) <= LONG_MAX
  {
    BitrateInLong(previous, data, FeedPatterns);
  }

  // ---------------------------------------------------------------------
  // The nested ZKFMetadataParser
  // ---------------------------------------------------------------------

  /** The fields of the parser; the size is the cleaned text. */
  datatype FeedMetadata = FeedMetadata(channel: Option<String>, languages: seq<String>, format: FormatFields,
                                       bitrate: int, approxFileSize: Option<String>)

  /** A new parser: nothing set, the bitrate and frame rate zero. */
  const Unparsed: FeedMetadata := FeedMetadata(None, [], FormatFields(None, 0, None), 0, None)

  /** A tag the switch names. */
  predicate IsTag(text: String)
  {
    text in {ChannelTag, LanguageTag, FormatTag, BitrateTag, SizeTag}
  }

  /**
   * One pass of the forEach: the case the element's text selects. A missing
   * neighbour throws NullPointerException, an empty language
   * StringIndexOutOfBoundsException and any other tag
   * InvalidBloggerPostException; none is caught.
   */
  function ItemOf(m: FeedMetadata, e: MetaElement): (r: Result<FeedMetadata>)
    ensures !IsTag(e.text) ==> r == Fail(InvalidBloggerPost)
    ensures r.Fail? ==> r.error in {NullPointer, IndexOutOfBounds, InvalidBloggerPost}
    ensures r.Ok? && e.text != LanguageTag ==> r.value.languages == m.languages
    ensures r.Ok? && e.text == LanguageTag ==>
              e.nextBoldText.Some? && |r.value.languages| == |m.languages| + 1 && LanguageOf(e.nextBoldText.value) == Ok(r.value.languages[|r.value.languages| - 1])
              && r.value.languages == m.languages + [r.value.languages[|r.value.languages| - 1]]
    ensures r.Ok? && e.text != BitrateTag ==> r.value.bitrate == m.bitrate
    ensures r.Ok? && e.text == BitrateTag ==>
              e.sibling.Some? && r.value.bitrate == BitrateOf(m.bitrate, Trim(CleanMetadata(e.sibling.value)), FeedPatterns)
  {
    if e.text == ChannelTag then
      if e.sibling.None? then Fail(NullPointer) else Ok(m.(channel := Some(CleanMetadata(e.sibling.value))))
    else if e.text == LanguageTag then
      if e.nextBoldText.None? then Fail(NullPointer)
      else
        var language :- LanguageOf(e.nextBoldText.value);
        Ok(m.(languages := m.languages + [language]))
    else if e.text == FormatTag then
      if e.sibling.None? then Fail(NullPointer) else Ok(m.(format := Format(m.format, e.sibling.value, FeedPatterns)))
    else if e.text == BitrateTag then
      if e.sibling.None? then Fail(NullPointer)
      else Ok(m.(bitrate := BitrateOf(m.bitrate, Trim(CleanMetadata(e.sibling.value)), FeedPatterns)))
    else if e.text == SizeTag then
      if e.sibling.None? then Fail(NullPointer) else Ok(m.(approxFileSize := Some(CleanMetadata(e.sibling.value))))
    else Fail(InvalidBloggerPost)
  }

  /** parseEventMetadata: the elements in order (defined from the end for the loop); the first exception escapes. */
  function Items(m: FeedMetadata, es: seq<MetaElement>): Result<FeedMetadata>
  {
    if es == [] then Ok(m)
    else
      var prev :- Items(m, es[..|es| - 1]);
      ItemOf(prev, es[|es| - 1])
  }

  /** The languages of the language elements, in order. */
  function LanguagesOf(es: seq<MetaElement>): seq<String>
  {
    if es == [] then []
    else
      var e := es[|es| - 1];
      LanguagesOf(es[..|es| - 1])
      + (if e.text == LanguageTag && e.nextBoldText.Some? && LanguageOf(e.nextBoldText.value).Ok?
         then [LanguageOf(e.nextBoldText.value).value] else [])
  }

  /** A parse that completes saw only the five tags. */
  lemma {:induction false} OnlyTagsParse(m: FeedMetadata, es: seq<MetaElement>)
    ensures Items(m, es).Ok? ==> forall k :: 0 <= k < |es| ==> IsTag(es[k].text)
  {
    if es != [] {
      var n := |es| - 1;
      OnlyTagsParse(m, es[..n]);
      if Items(m, es).Ok? {
        forall k | 0 <= k < |es|
          ensures IsTag(es[k].text)
        {
          if k < n {
            assert es[..n][k] == es[k];
          }
        }
      }
    }
  }

  /** Every language element adds its language after those before it. */
  lemma {:induction false} LanguagesInOrder(m: FeedMetadata, es: seq<MetaElement>)
    ensures Items(m, es).Ok? ==> Items(m, es).value.languages == m.languages + LanguagesOf(es)
  {
    if es != [] {
      LanguagesInOrder(m, es[..|es| - 1]);
    }
  }

  /** The parse throws only NullPointerException, StringIndexOutOfBoundsException or InvalidBloggerPostException. */
  lemma {:induction false} ItemsFailures(m: FeedMetadata, es: seq<MetaElement>)
    ensures Items(m, es).Fail? ==> Items(m, es).error in {NullPointer, IndexOutOfBounds, InvalidBloggerPost}
  {
    if es != [] {
      ItemsFailures(m, es[..|es| - 1]);
    }
  }

  /** The number of bitrate elements. */
  function BitrateCount(es: seq<MetaElement>): nat
  {
    if es == [] then 0 else BitrateCount(es[..|es| - 1]) + (if es[|es| - 1].text == BitrateTag then 1 else 0)
  }

  /** A bitrate element anywhere is counted. */
  lemma {:induction false} BitrateCounted(es: seq<MetaElement>, k: nat)
    requires k < |es| && es[k].text == BitrateTag
    ensures BitrateCount(es) > 0
  {
    var n := |es| - 1;
    if k < n {
      assert es[..n][k] == es[k];
      BitrateCounted(es[..n], k);
    }
  }

  /** One element: a bitrate element leaves a positive bitrate, any other keeps it. */
  lemma BitrateStep(p: FeedMetadata, e: MetaElement)
    requires 0 <= p.bitrate <= LONG_MAX
    ensures ItemOf(p, e).Ok? && e.text == BitrateTag ==> 0 < ItemOf(p, e).value.bitrate <= LONG_MAX
    ensures ItemOf(p, e).Ok? && e.text != BitrateTag ==> ItemOf(p, e).value.bitrate == p.bitrate
  {
    if ItemOf(p, e).Ok? && e.text == BitrateTag {
      FeedBitrateBounds(p.bitrate, Trim(CleanMetadata(e.sibling.value)));
    }
  }

  /** The bitrate always fits a long, and once a bitrate element is read it is never zero again. */
  lemma {:induction false} BitrateInRange(m: FeedMetadata, es: seq<MetaElement>)
    requires 0 <= m.bitrate <= LONG_MAX
    ensures Items(m, es).Ok? ==> 0 <= Items(m, es).value.bitrate <= LONG_MAX
    ensures Items(m, es).Ok? && (m.bitrate > 0 || BitrateCount(es) > 0) ==> Items(m, es).value.bitrate > 0
  {
    if es != [] {
      var n := |es| - 1;
      BitrateInRange(m, es[..n]);
      ItemsStep(m, es);
      if Items(m, es).Ok? {
        BitrateStep(Items(m, es[..n]).value, es[n]);
      }
    }
  }

  /** Once a bitrate element is read the bitrate is never zero again. */
  lemma BitrateStaysSet(m: FeedMetadata, es: seq<MetaElement>, k: nat)
    requires 0 <= m.bitrate <= LONG_MAX
    requires k < |es| && es[k].text == BitrateTag
    ensures Items(m, es).Ok? ==> Items(m, es).value.bitrate > 0
  {
    BitrateCounted(es, k);
    BitrateInRange(m, es);
  }

  /** A run that completes completed on all but its last element, then read that one. */
  lemma ItemsStep(m: FeedMetadata, es: seq<MetaElement>)
    requires es != []
    ensures Items(m, es).Ok? ==>
              Items(m, es[..|es| - 1]).Ok? && Items(m, es) == ItemOf(Items(m, es[..|es| - 1]).value, es[|es| - 1])
  { }

  /** The nested ZKFMetadataParser: the fields parseEventMetadata sets. */
  class FeedMetadataParser {
    var channel: Option<String>
    var languages: seq<String>
    var resolution: Option<Resolution>
    var frameRate: int
    var mediaContainer: Option<String>
    var bitrate: int
    var approxFileSize: Option<String>

    function Snapshot(): FeedMetadata
      reads this
    {
      FeedMetadata(channel, languages, FormatFields(resolution, frameRate, mediaContainer), bitrate, approxFileSize)
    }

    constructor()
      ensures Snapshot() == Unparsed
    {
      channel := None;
      languages := [];
      resolution := None;
      frameRate := 0;
      mediaContainer := None;
      bitrate := 0;
      approxFileSize := None;
    }

    /** One element of the forEach. */
    method ParseItem(e: MetaElement) returns (r: Result<()>)
      modifies this
      ensures r.Fail? <==> ItemOf(old(Snapshot()), e).Fail?
      ensures r.Fail? ==> r.error == ItemOf(old(Snapshot()), e).error
      ensures r.Ok? ==> Snapshot() == ItemOf(old(Snapshot()), e).value
    {
      if e.text == LanguageTag {
        r := ParseLanguage(e);
      } else if e.text == FormatTag {
        r := ParseFormat(e);
      } else if e.text == ChannelTag {
        r := ParseChannel(e);
      } else if e.text == BitrateTag {
        r := ParseBitrate(e);
      } else if e.text == SizeTag {
        r := ParseSize(e);
      } else {
        r := Fail(InvalidBloggerPost);
      }
    }

    /** The LANGUAGE case: the language of the next bold element is appended. */
    method ParseLanguage(e: MetaElement) returns (r: Result<()>)
      requires e.text == LanguageTag
      modifies this
      ensures r.Fail? <==> ItemOf(old(Snapshot()), e).Fail?
      ensures r.Fail? ==> r.error == ItemOf(old(Snapshot()), e).error
      ensures r.Ok? ==> Snapshot() == ItemOf(old(Snapshot()), e).value
    {
      if e.nextBoldText.None? {
        return Fail(NullPointer);
      }
      var language := LanguageOf(e.nextBoldText.value);
      if language.Fail? {
        return Fail(language.error);
      }
      languages := languages + [language.value];
      return Ok(());
    }

    /** The FORMAT case: the format text is read into the three format fields. */
    method ParseFormat(e: MetaElement) returns (r: Result<()>)
      requires e.text == FormatTag
      modifies this
      ensures r.Fail? <==> ItemOf(old(Snapshot()), e).Fail?
      ensures r.Fail? ==> r.error == ItemOf(old(Snapshot()), e).error
      ensures r.Ok? ==> Snapshot() == ItemOf(old(Snapshot()), e).value
    {
      if e.sibling.None? {
        return Fail(NullPointer);
      }
      var f := ReadFormat(FormatFields(resolution, frameRate, mediaContainer), e.sibling.value, FeedPatterns);
      resolution, frameRate, mediaContainer := f.resolution, f.frameRate, f.mediaContainer;
      return Ok(());
    }

    /** The CHANNEL case: the cleaned neighbour text is the channel. */
    method ParseChannel(e: MetaElement) returns (r: Result<()>)
      requires e.text == ChannelTag
      modifies this
      ensures r.Fail? <==> ItemOf(old(Snapshot()), e).Fail?
      ensures r.Fail? ==> r.error == ItemOf(old(Snapshot()), e).error
      ensures r.Ok? ==> Snapshot() == ItemOf(old(Snapshot()), e).value
    {
      if e.sibling.None? {
        return Fail(NullPointer);
      }
      channel := Some(CleanMetadata(e.sibling.value));
      return Ok(());
    }

    /** The BITRATE case: the neighbour text is read as a bitrate. */
    method ParseBitrate(e: MetaElement) returns (r: Result<()>)
      requires e.text == BitrateTag
      modifies this
      ensures r.Fail? <==> ItemOf(old(Snapshot()), e).Fail?
      ensures r.Fail? ==> r.error == ItemOf(old(Snapshot()), e).error
      ensures r.Ok? ==> Snapshot() == ItemOf(old(Snapshot()), e).value
    {
      if e.sibling.None? {
        return Fail(NullPointer);
      }
      var b := BitrateOf(bitrate, Trim(CleanMetadata(e.sibling.value)), FeedPatterns);
      assert ItemOf(Snapshot(), e) == Ok(Snapshot().(bitrate := b));
      bitrate := b;
      return Ok(());
    }

    /** The SIZE case: the cleaned neighbour text is the approximate size. */
    method ParseSize(e: MetaElement) returns (r: Result<()>)
      requires e.text == SizeTag
      modifies this
      ensures r.Fail? <==> ItemOf(old(Snapshot()), e).Fail?
      ensures r.Fail? ==> r.error == ItemOf(old(Snapshot()), e).error
      ensures r.Ok? ==> Snapshot() == ItemOf(old(Snapshot()), e).value
    {
      if e.sibling.None? {
        return Fail(NullPointer);
      }
      approxFileSize := Some(CleanMetadata(e.sibling.value));
      return Ok(());
    }

    /** parseEventMetadata: the forEach over the elements. */
    method ParseEventMetadata(es: seq<MetaElement>) returns (r: Result<()>)
      modifies this
      ensures r.Fail? <==> Items(old(Snapshot()), es).Fail?
      ensures r.Fail? ==> r.error == Items(old(Snapshot()), es).error
      ensures r.Ok? ==> Snapshot() == Items(old(Snapshot()), es).value
    {
      ghost var start := Snapshot();
      var i := 0;
      while i < |es|
        invariant 0 <= i <= |es|
        invariant Items(start, es[..i]) == Ok(Snapshot())
      {
        var step := ParseItem(es[i]);
        assert es[..i + 1][..i] == es[..i];
        if step.Fail? {
          ItemsFailFrom(start, es, i);
          return Fail(step.error);
        }
        i := i + 1;
      }
      assert es[..i] == es;
      return Ok(());
    }
  }

  /** A prefix whose last element throws makes the whole run throw the same exception. */
  lemma {:induction false} ItemsFailFrom(m: FeedMetadata, es: seq<MetaElement>, i: nat)
    requires i < |es| && Items(m, es[..i]).Ok?
    requires ItemOf(Items(m, es[..i]).value, es[i]).Fail?
    ensures Items(m, es) == Fail(ItemOf(Items(m, es[..i]).value, es[i]).error)
  {
    assert es[..i + 1][..i] == es[..i];
    ItemsFailLater(m, es, i + 1);
  }

  /** A prefix that throws makes every longer run throw the same exception. */
  lemma {:induction false} ItemsFailLater(m: FeedMetadata, es: seq<MetaElement>, j: nat)
    requires j <= |es| && Items(m, es[..j]).Fail?
    ensures Items(m, es) == Items(m, es[..j])
    decreases |es| - j
  {
    if j == |es| {
      assert es[..j] == es;
    } else {
      assert es[..j + 1][..j] == es[..j];
      ItemsFailLater(m, es, j + 1);
    }
  }

  /** A ZKFEventFileSource: the parser's fields, and the files the walk adds. */
  datatype FeedSource = FeedSource(channel: Option<String>, approximateFileSize: Option<String>,
                                   resolution: Option<Resolution>, mediaContainer: Option<String>, bitrate: int,
                                   frameRate: int, languages: seq<String>, eventFiles: seq<EventFile>)

  /** The ZKFEventFileSource constructor: the parser's fields unpacked, no files yet. */
  function SourceOf(m: FeedMetadata): (r: FeedSource)
    ensures r.channel == m.channel && r.approximateFileSize == m.approxFileSize && r.languages == m.languages
    ensures r.resolution == m.format.resolution && r.mediaContainer == m.format.mediaContainer
    ensures r.frameRate == m.format.frameRate && r.bitrate == m.bitrate && r.eventFiles == []
  {
    FeedSource(m.channel, m.approxFileSize, m.format.resolution, m.format.mediaContainer, m.bitrate,
               m.format.frameRate, m.languages, [])
  }

  /** fromElements as a value. */
  function SourceFor(es: seq<MetaElement>): Result<FeedSource>
  {
    var m :- Items(Unparsed, es);
    Ok(SourceOf(m))
  }

  /** fromElements: a new parser over the elements, its fields unpacked into a new source. */
  method FromElements(es: seq<MetaElement>) returns (r: Result<FeedSource>)
    ensures r == SourceFor(es)
    ensures r.Ok? ==> r.value.languages == LanguagesOf(es) && r.value.eventFiles == []
    ensures r.Ok? ==> forall k :: 0 <= k < |es| ==> IsTag(es[k].text)
  {
    var parser := new FeedMetadataParser();
    var parsed := parser.ParseEventMetadata(es);
    if parsed.Fail? {
      return Fail(parsed.error);
    }
    LanguagesInOrder(Unparsed, es);
    OnlyTagsParse(Unparsed, es);
    return Ok(SourceOf(parser.Snapshot()));
  }
}
