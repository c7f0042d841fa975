/**
 * The Galataman metadata parsers of the datasource plugin: GManFileMetadata
 * (src/main/java/self/me/matchday/plugin/datasource/galataman/GManFileMetadata.java)
 * and the class of the same name nested in GManFileSourceMetadataParser
 * (GManFileSourceMetadataParser.java in the same directory), whose
 * createFileSource copies its values into an EventFileSource.
 *
 * Both read the same key/value items as the other Galataman parsers, but
 * keep one value per field: the languages joined with ", ", the video item
 * read for bitrate, codec and container, or frame rate, the audio item read
 * for the channel count or the codec. They differ in two places, which the
 * `accumulate` flag of the nested parser selects:
 *  - audio channels: GManFileMetadata sums one item's channels in a local
 *    and stores the sum, while the nested parser adds each channel piece to
 *    the field itself, so the counts of several channel items add up and a
 *    piece that does not parse leaves the pieces before it added;
 *  - SIZE: GManFileMetadata unboxes the parsed size into a long, so a size
 *    it cannot read throws NullPointerException, while the nested parser
 *    stores the null.
 *
 * GManPatterns is not part of this model: its delimiters and patterns, the
 * bitrate conversion factor and the floating-point parseFileSize are
 * parameters.
 */
module GManFileMetadata {
  import opened Outcome
  import opened JavaString
  import opened Regex
  import opened EventFileSource
  import opened GalatamanMetadata

  /** The GManPatterns values the parsers read. */
  datatype GManPatterns = GManPatterns(metadataDelimiter: Matcher, metadataKvDelimiter: Matcher,
                                       languageDelimiter: Matcher, avDataDelimiter: Matcher,
                                       bitrate: Pattern, bitrateConversionFactor: int, container: Matcher,
                                       framerate: Pattern, channel: Matcher, fileSize: String -> Option<int>)

  /** The fields the parsers set; frame rate and channel count are Java ints that start at 0. */
  datatype Metadata = Metadata(channel: Option<String>, source: Option<String>, languages: Option<String>,
                               mediaContainer: Option<String>, bitrate: Option<int>, videoCodec: Option<String>,
                               frameRate: int, audioCodec: Option<String>, audioChannels: int,
                               duration: Option<String>, fileSize: Option<int>, resolution: Option<Resolution>)

  /** A new parser: nothing set. */
  const Unset: Metadata := Metadata(None, None, None, None, None, None, 0, None, 0, None, None, None)

  // ---------------------------------------------------------------------
  // Video items
  // ---------------------------------------------------------------------

  /** Long.parseLong(group(1)) * factor: a missing group is a null string, which does not parse. */
  function BitrateOf(mr: MatchResult, factor: int): (r: Result<int>)
    ensures r.Ok? <==> |mr.groups| >= 1 && mr.groups[0].Some? && ParseLong(mr.groups[0].value).Some?
    ensures r.Ok? ==> r.value == Wrap64(ParseLong(mr.groups[0].value).value * factor)
    ensures r.Fail? ==> r.error == IndexOutOfBounds || r.error == NumberFormat
  {
    var g :- Group(mr, 1);
    if g.None? then Fail(NumberFormat)
    else
      var n :- ParseLongChecked(g.value);
      Ok(Wrap64(n * factor))
  }

  /** Integer.parseInt(group(1)). */
  function FrameRateOf(mr: MatchResult): (r: Result<int>)
    ensures r.Ok? <==> |mr.groups| >= 1 && mr.groups[0].Some? && ParseInt(mr.groups[0].value).Some?
    ensures r.Ok? ==> r.value == ParseInt(mr.groups[0].value).value
    ensures r.Fail? ==> r.error == IndexOutOfBounds || r.error == NumberFormat
  {
    var g :- Group(mr, 1);
    if g.None? then Fail(NumberFormat) else ParseIntChecked(g.value)
  }

  /** The two metadata values differ at most in the fields a video item sets. */
  predicate VideoFieldsOnly(a: Metadata, b: Metadata)
  {
    a.(bitrate := b.bitrate, videoCodec := b.videoCodec, mediaContainer := b.mediaContainer,
       frameRate := b.frameRate) == b
  }

  /**
   * One pass of the video loop: the trimmed item read for a bitrate, else
   * "codec container" when the container pattern finds (the codec is the
   * first space-separated field and the container the second, upper-cased;
   * a missing second field throws), else a frame rate.
   */
  function VideoItem(m: Metadata, item: String, p: GManPatterns): (r: Result<Metadata>)
    ensures r.Ok? ==> VideoFieldsOnly(m, r.value)
    ensures r.Fail? ==> r.error == IndexOutOfBounds || r.error == NumberFormat
  {
    var d := Trim(item);
    match p.bitrate(d)
    case Some(mr) =>
      var b :- BitrateOf(mr, p.bitrateConversionFactor);
      Ok(m.(bitrate := Some(b)))
    case None =>
      if Found(p.container, d) then
        var parts := SplitChar(' ', d);
        if |parts| < 2 then Fail(IndexOutOfBounds)
        else Ok(m.(videoCodec := Some(parts[0]), mediaContainer := Some(Upper(parts[1]))))
      else match p.framerate(d)
        case None => Ok(m)
        case Some(mr) =>
          var f :- FrameRateOf(mr);
          Ok(m.(frameRate := f))
  }

  /** The video loop over the split items (defined from the end for the loop); the first exception ends it. */
  function VideoRun(m: Metadata, items: seq<String>, p: GManPatterns): Result<Metadata>
  {
    if items == [] then Ok(m)
    else
      var prev :- VideoRun(m, items[..|items| - 1], p);
      VideoItem(prev, items[|items| - 1], p)
  }

  /** The video loop changes only the video fields, and throws only what one of its items throws. */
  lemma {:induction false} VideoRunFieldsOnly(m: Metadata, items: seq<String>, p: GManPatterns)
    ensures VideoRun(m, items, p).Ok? ==> VideoFieldsOnly(m, VideoRun(m, items, p).value)
    ensures VideoRun(m, items, p).Fail? ==> VideoRun(m, items, p).error in {IndexOutOfBounds, NumberFormat}
  {
    if items != [] {
      VideoRunFieldsOnly(m, items[..|items| - 1], p);
    }
  }

  /** A trimmed "codec container" item, neither side holding a space, sets exactly that codec and the container upper-cased. */
  lemma CodecContainerItem(m: Metadata, codec: String, container: String, p: GManPatterns)
    requires codec != [] && container != []
    requires ' ' !in codec && ' ' !in container
    requires codec[0] > ' ' && container[|container| - 1] > ' '
    requires p.bitrate(codec + " " + container).None? && Found(p.container, codec + " " + container)
    ensures VideoItem(m, codec + " " + container, p)
            == Ok(m.(videoCodec := Some(codec), mediaContainer := Some(Upper(container))))
  {
    var d := codec + " " + container;
    assert LeadingBlanks(d) == 0;
    assert TrailingBlanks(d) == 0;
    assert d[0..|d|] == d;
    assert Trim(d) == d;
    SplitAtOnly(' ', codec, container);
    SplitCharIsSplit(' ', d);
  }

  /** Two factors below a billion multiply to at most 10^18, inside the long range. */
  lemma ProductInLong(a: int, b: int)
    requires 0 <= a < 1_000_000_000 && 0 <= b <= 1_000_000_000
    ensures 0 <= a * b <= LONG_MAX
  {
    MulAtMost(a, b, 1_000_000_000);
    MulAtMost(1_000_000_000, a, 1_000_000_000);
  }

  /** Multiplying by a non-negative factor keeps an upper bound. */
  lemma MulAtMost(a: int, b: int, c: int)
    requires 0 <= a && 0 <= b <= c
    ensures 0 <= a * b <= a * c
  {
  }

  /** A first group of at most nine digits is read as its number times the factor. */
  lemma BitrateOfDigits(mr: MatchResult, factor: int, digits: String)
    requires 0 < |digits| <= 9 && AllDigits(digits)
    requires 0 <= factor <= 1_000_000_000
    requires |mr.groups| >= 1 && mr.groups[0] == Some(digits)
    ensures BitrateOf(mr, factor) == Ok(DigitsValue(digits) * factor)
  {
    ParseShortDigits(digits);
    DigitsValueBelow(digits);
    Pow10Grows(|digits|, 9);
    assert Pow10(9) == 1_000_000_000;
    ProductInLong(DigitsValue(digits), factor);
  }

  /** A bitrate item of at most nine digits sets the bitrate to that number times the conversion factor. */
  lemma BitrateItem(m: Metadata, item: String, p: GManPatterns, mr: MatchResult, digits: String)
    requires 0 < |digits| <= 9 && AllDigits(digits)
    requires 0 <= p.bitrateConversionFactor <= 1_000_000_000
    requires p.bitrate(Trim(item)) == Some(mr) && |mr.groups| >= 1 && mr.groups[0] == Some(digits)
    ensures VideoItem(m, item, p) == Ok(m.(bitrate := Some(DigitsValue(digits) * p.bitrateConversionFactor)))
  {
    BitrateOfDigits(mr, p.bitrateConversionFactor, digits);
  }

  // ---------------------------------------------------------------------
  // Audio items
  // ---------------------------------------------------------------------

  const Stereo: String := "stereo"
  const ChannelsWord: String := "channels"

  /** Integer.parseInt of each piece, trimmed. */
  function PieceValues(pieces: seq<String>): (r: seq<Option<int>>)
    ensures |r| == |pieces|
  {
    seq(|pieces|, k requires 0 <= k < |pieces| => ParseInt(Trim(pieces[k])))
  }

  /**
   * The channel loop over the parsed pieces: each added to the total with
   * int wrap-around, until one did not parse; the total reached, and
   * whether every piece parsed.
   */
  function AddChannels(total: int, values: seq<Option<int>>): (r: (int, bool))
  {
    if values == [] then (total, true)
    else
      var prev := AddChannels(total, values[..|values| - 1]);
      if !prev.1 then prev
      else match values[|values| - 1]
        case None => (prev.0, false)
        case Some(v) => (Wrap32(prev.0 + v), true)
  }

  /** The sum of the values that parsed. */
  function ChannelSum(values: seq<Option<int>>): int
  {
    if values == [] then 0
    else ChannelSum(values[..|values| - 1]) + match values[|values| - 1] { case Some(v) => v case None => 0 }
  }

  /** Int addition wraps around once however often the partial sums are wrapped. */
  lemma Wrap32Add(x: int, v: int)
    ensures Wrap32(Wrap32(x) + v) == Wrap32(x + v)
  {
    var k1 := (x - INT_MIN) / 0x1_0000_0000;
    var r1 := (x - INT_MIN) % 0x1_0000_0000;
    var k2 := (r1 + v) / 0x1_0000_0000;
    var r2 := (r1 + v) % 0x1_0000_0000;
    var k3 := (x - INT_MIN + v) / 0x1_0000_0000;
    var r3 := (x - INT_MIN + v) % 0x1_0000_0000;
    assert x - INT_MIN == k1 * 0x1_0000_0000 + r1;
    assert r1 + v == k2 * 0x1_0000_0000 + r2;
    assert x - INT_MIN + v == k3 * 0x1_0000_0000 + r3;
    assert (k1 + k2 - k3) * 0x1_0000_0000 == r3 - r2;
    assert r2 == r3;
  }

  /** The loop ends with every piece parsed exactly when they all parse. */
  lemma {:induction false} AddChannelsOk(total: int, values: seq<Option<int>>)
    ensures AddChannels(total, values).1 <==> forall k :: 0 <= k < |values| ==> values[k].Some?
  {
    if values != [] {
      var n := |values| - 1;
      var init := values[..n];
      AddChannelsOk(total, init);
      if AddChannels(total, values).1 {
        forall k | 0 <= k < |values|
          ensures values[k].Some?
        {
          if k < n {
            assert values[k] == init[k];
          }
        }
      } else if AddChannels(total, init).1 {
        assert values[n].None?;
      } else {
        var k :| 0 <= k < n && init[k].None?;
        assert values[k] == init[k];
      }
    }
  }

  /**
   * When every piece parses, the loop's total is the start plus the sum of
   * the pieces, wrapped to an int.
   */
  lemma {:induction false} AddChannelsTotal(total: int, values: seq<Option<int>>)
    requires INT_MIN <= total <= INT_MAX
    requires AddChannels(total, values).1
    ensures AddChannels(total, values).0 == Wrap32(total + ChannelSum(values))
  {
    if values != [] {
      var n := |values| - 1;
      AddChannelsTotal(total, values[..n]);
      Wrap32Add(total + ChannelSum(values[..n]), values[n].value);
    }
  }

  /** The two values differ at most in the fields an audio item sets. */
  predicate AudioFieldsOnly(a: Metadata, b: Metadata)
  {
    a.(audioChannels := b.audioChannels, audioCodec := b.audioCodec) == b
  }

  /**
   * One pass of the audio loop: the state after it, and whether it ran
   * without an exception. "stereo" sets 2 channels; a channel item's text
   * before "channels" split on '.' gives the pieces, added to the field when
   * accumulate is set and to a local that is then stored otherwise; an item
   * the bitrate pattern does not find in is the codec, upper-cased.
   */
  function AudioItem(m: Metadata, item: String, p: GManPatterns, accumulate: bool): (r: (Metadata, bool))
    ensures AudioFieldsOnly(m, r.0)
  {
    var d := Trim(item);
    if d == Stereo then (m.(audioChannels := 2), true)
    else if Found(p.channel, d) then ChannelItem(m, d, accumulate)
    else if p.bitrate(d).None? then (m.(audioCodec := Some(Upper(d))), true)
    else (m, true)
  }

  /**
   * A channel item: the text before the first "channels" split on '.', the
   * pieces added up; nothing before "channels" throws before any is added.
   */
  function ChannelItem(m: Metadata, d: String, accumulate: bool): (r: (Metadata, bool))
    ensures r.0 == m || r.0 == m.(audioChannels := r.0.audioChannels)
  {
    var channels := Split(Literal(ChannelsWord), d);
    if channels == [] then (m, false)
    else AddToChannels(m, PieceValues(SplitChar('.', channels[0])), accumulate)
  }

  /**
   * The pieces added to the field (nested parser), or to a local stored
   * only when all parsed.
   */
  function AddToChannels(m: Metadata, values: seq<Option<int>>, accumulate: bool): (r: (Metadata, bool))
  {
    var sum := AddChannels(if accumulate then m.audioChannels else 0, values);
    if sum.1 || accumulate then (m.(audioChannels := sum.0), sum.1) else (m, false)
  }

  /** The audio loop inside its try: the items in order until one throws, which is caught and ends the loop. */
  function AudioRun(m: Metadata, items: seq<String>, p: GManPatterns, accumulate: bool): (r: (Metadata, bool))
  {
    if items == [] then (m, true)
    else
      var prev := AudioRun(m, items[..|items| - 1], p, accumulate);
      if !prev.1 then prev else AudioItem(prev.0, items[|items| - 1], p, accumulate)
  }

  /** The audio loop changes only the channel count and the audio codec. */
  lemma {:induction false} AudioRunFieldsOnly(m: Metadata, items: seq<String>, p: GManPatterns, accumulate: bool)
    ensures AudioFieldsOnly(m, AudioRun(m, items, p, accumulate).0)
  {
    if items != [] {
      AudioRunFieldsOnly(m, items[..|items| - 1], p, accumulate);
    }
  }

  /** "stereo", with any blanks around it, sets two channels. */
  lemma StereoIsTwo(m: Metadata, item: String, p: GManPatterns, accumulate: bool)
    requires Trim(item) == Stereo
    ensures AudioItem(m, item, p, accumulate) == (m.(audioChannels := 2), true)
  {
  }

  /**
   * A channel item whose pieces all parse sets the sum of the pieces; the
   * nested parser adds that sum to the channels counted so far.
   */
  lemma ChannelItemSum(m: Metadata, values: seq<Option<int>>, accumulate: bool)
    requires INT_MIN <= m.audioChannels <= INT_MAX
    requires forall k :: 0 <= k < |values| ==> values[k].Some?
    ensures AddToChannels(m, values, accumulate)
            == (m.(audioChannels := Wrap32((if accumulate then m.audioChannels else 0) + ChannelSum(values))), true)
  {
    var start := if accumulate then m.audioChannels else 0;
    AddChannelsOk(start, values);
    AddChannelsTotal(start, values);
  }

  /** A piece that does not parse ends the loop; only the nested parser keeps what it added. */
  lemma ChannelItemStops(m: Metadata, values: seq<Option<int>>, accumulate: bool, k: nat)
    requires k < |values| && values[k].None?
    ensures !AddToChannels(m, values, accumulate).1
    ensures !accumulate ==> AddToChannels(m, values, accumulate).0 == m
  {
    AddChannelsOk(if accumulate then m.audioChannels else 0, values);
  }

  // ---------------------------------------------------------------------
  // The items
  // ---------------------------------------------------------------------

  /** parseLanguages: the entries that are not blank, joined with ", ". */
  function JoinedLanguages(value: String, delimiter: Matcher): String
  {
    Join(Languages(value, delimiter), ", ")
  }

  /**
   * parseDataItem: the cleaned value stored under the case the upper-cased
   * key selects; an unknown key throws IllegalArgumentException.
   */
  function MetadataItem(m: Metadata, kv: MetadataTuple, p: GManPatterns, accumulate: bool): (r: Result<Metadata>)
    ensures KeyOf(KeyString(kv)).None? ==> r == Fail(IllegalArgument)
  {
    match KeyOf(KeyString(kv))
    case None => Fail(IllegalArgument)
    case Some(k) => KeyItem(m, k, Clean(kv.value), p, accumulate)
  }

  /** One case of the switch, given the cleaned value. */
  function KeyItem(m: Metadata, k: Key, value: String, p: GManPatterns, accumulate: bool): (r: Result<Metadata>)
    ensures k in {Language, Commentary} ==> r == Ok(m.(languages := Some(JoinedLanguages(value, p.languageDelimiter))))
    ensures r.Fail? ==> r.error in {IndexOutOfBounds, NumberFormat, NullPointer}
  {
    match k
    case Channel => Ok(m.(channel := Some(value)))
    case Source => Ok(m.(source := Some(value)))
    case Language => Ok(m.(languages := Some(JoinedLanguages(value, p.languageDelimiter))))
    case Commentary => Ok(m.(languages := Some(JoinedLanguages(value, p.languageDelimiter))))
    case Video =>
      VideoRunFieldsOnly(m, Split(p.avDataDelimiter, value), p);
      VideoRun(m, Split(p.avDataDelimiter, value), p)
    case Audio => Ok(AudioRun(m, Split(p.avDataDelimiter, value), p, accumulate).0)
    case Duration => Ok(m.(duration := Some(value)))
    case Size =>
      var size := p.fileSize(value);
      if size.None? && !accumulate then Fail(NullPointer) else Ok(m.(fileSize := size))
    case Release => Ok(m.(resolution := Some(ParseResolution(value))))
  }

  /** The items applied in order (defined from the end for the loop); the first exception ends it. */
  function MetadataItems(m: Metadata, kvs: seq<MetadataTuple>, p: GManPatterns, accumulate: bool): Result<Metadata>
  {
    if kvs == [] then Ok(m)
    else
      var prev :- MetadataItems(m, kvs[..|kvs| - 1], p, accumulate);
      MetadataItem(prev, kvs[|kvs| - 1], p, accumulate)
  }

  /** A run of items fails when its prefix fails, and otherwise as its last item does. */
  lemma MetadataItemsLast(m: Metadata, kvs: seq<MetadataTuple>, p: GManPatterns, accumulate: bool)
    requires kvs != []
    ensures var prev := MetadataItems(m, kvs[..|kvs| - 1], p, accumulate);
            MetadataItems(m, kvs, p, accumulate).Fail? <==>
              prev.Fail? || MetadataItem(prev.value, kvs[|kvs| - 1], p, accumulate).Fail?
  {
  }

  /** An item with a key the switch does not name makes the whole parse throw. */
  lemma {:induction false} UnknownKeyThrows(m: Metadata, kvs: seq<MetadataTuple>, p: GManPatterns, accumulate: bool, i: nat)
    requires i < |kvs| && KeyOf(KeyString(kvs[i])).None?
    ensures MetadataItems(m, kvs, p, accumulate).Fail?
  {
    var n := |kvs| - 1;
    if i < n {
      assert kvs[..n][i] == kvs[i];
      UnknownKeyThrows(m, kvs[..n], p, accumulate, i);
      MetadataItemsLast(m, kvs, p, accumulate);
    } else {
      UnknownLastThrows(m, kvs, p, accumulate);
    }
  }

  /** A run whose last item has an unknown key throws. */
  lemma UnknownLastThrows(m: Metadata, kvs: seq<MetadataTuple>, p: GManPatterns, accumulate: bool)
    requires kvs != [] && KeyOf(KeyString(kvs[|kvs| - 1])).None?
    ensures MetadataItems(m, kvs, p, accumulate).Fail?
  {
    MetadataItemsLast(m, kvs, p, accumulate);
  }

  /** The constructor: the items parsed, then applied to a new parser. */
  function ParseMetadata(html: String, p: GManPatterns, accumulate: bool): Result<Metadata>
  {
    var kvs :- DataItems(html, p.metadataDelimiter, p.metadataKvDelimiter, IllegalArgument);
    MetadataItems(Unset, kvs, p, accumulate)
  }

  /** The same value under a LANGUAGE key and under a COMMENTARY key sets the same languages, replacing any before. */
  lemma LanguageIsCommentary(m: Metadata, language: MetadataTuple, commentary: MetadataTuple, p: GManPatterns,
                             accumulate: bool)
    requires KeyOf(KeyString(language)) == Some(Language) && KeyOf(KeyString(commentary)) == Some(Commentary)
    requires language.value == commentary.value
    ensures MetadataItem(m, language, p, accumulate) == MetadataItem(m, commentary, p, accumulate)
    ensures MetadataItem(m, language, p, accumulate)
            == Ok(m.(languages := Some(JoinedLanguages(Clean(language.value), p.languageDelimiter))))
  {
  }

  /** A SIZE item that cannot be read throws in GManFileMetadata and clears the size in the nested parser. */
  lemma UnreadableSize(m: Metadata, kv: MetadataTuple, p: GManPatterns, accumulate: bool)
    requires KeyOf(KeyString(kv)) == Some(Size) && p.fileSize(Clean(kv.value)).None?
    ensures !accumulate ==> MetadataItem(m, kv, p, accumulate) == Fail(NullPointer)
    ensures accumulate ==> MetadataItem(m, kv, p, accumulate) == Ok(m.(fileSize := None))
  {
  }

  // ---------------------------------------------------------------------
  // The parser object
  // ---------------------------------------------------------------------

  /** A metadata parser: the raw metadata and the fields its items set. */
  class FileMetadata {
    const metadataStr: String
    const accumulate: bool
    var channel: Option<String>
    var source: Option<String>
    var languages: Option<String>
    var mediaContainer: Option<String>
    var bitrate: Option<int>
    var videoCodec: Option<String>
    var frameRate: int
    var audioCodec: Option<String>
    var audioChannels: int
    var duration: Option<String>
    var fileSize: Option<int>
    var resolution: Option<Resolution>

    function Snapshot(): Metadata
      reads this
    {
      Metadata(channel, source, languages, mediaContainer, bitrate, videoCodec, frameRate, audioCodec, audioChannels,
               duration, fileSize, resolution)
    }

    constructor(metadataStr: String, accumulate: bool)
      ensures this.metadataStr == metadataStr && this.accumulate == accumulate && Snapshot() == Unset
    {
      this.metadataStr := metadataStr;
      this.accumulate := accumulate;
      channel := None;
      source := None;
      languages := None;
      mediaContainer := None;
      bitrate := None;
      videoCodec := None;
      frameRate := 0;
      audioCodec := None;
      audioChannels := 0;
      duration := None;
      fileSize := None;
      resolution := None;
    }

    /** One pass of the video loop, setting the field the item names. */
    method ParseVideoItem(item: String, p: GManPatterns) returns (r: Result<()>)
      modifies this
      ensures r.Fail? <==> VideoItem(old(Snapshot()), item, p).Fail?
      ensures r.Fail? ==> r.error == VideoItem(old(Snapshot()), item, p).error
      ensures r.Ok? ==> Snapshot() == VideoItem(old(Snapshot()), item, p).value
    {
      var d := Trim(item);
      match p.bitrate(d) {
        case Some(mr) =>
          var b := BitrateOf(mr, p.bitrateConversionFactor);
          if b.Fail? {
            return Fail(b.error);
          }
          bitrate := Some(b.value);
        case None =>
          if Found(p.container, d) {
            var parts := SplitChar(' ', d);
            if |parts| < 2 {
              return Fail(IndexOutOfBounds);
            }
            videoCodec := Some(parts[0]);
            mediaContainer := Some(Upper(parts[1]));
          } else {
            match p.framerate(d) {
              case None =>
              case Some(mr) =>
                var f := FrameRateOf(mr);
                if f.Fail? {
                  return Fail(f.error);
                }
                frameRate := f.value;
            }
          }
      }
      return Ok(());
    }

    /** parseVideoMetadata: every item of the split read in order; an exception ends it. */
    method ParseVideoMetadata(videoMetadata: String, p: GManPatterns) returns (r: Result<()>)
      modifies this
      ensures r.Fail? <==> VideoRun(old(Snapshot()), Split(p.avDataDelimiter, videoMetadata), p).Fail?
      ensures r.Fail? ==> r.error == VideoRun(old(Snapshot()), Split(p.avDataDelimiter, videoMetadata), p).error
      ensures r.Ok? ==> Snapshot() == VideoRun(old(Snapshot()), Split(p.avDataDelimiter, videoMetadata), p).value
    {
      var items := Split(p.avDataDelimiter, videoMetadata);
      var i := 0;
      while i < |items|
        invariant 0 <= i <= |items|
        invariant VideoRun(old(Snapshot()), items[..i], p) == Ok(Snapshot())
      {
        VideoRunStep(old(Snapshot()), items, i, p);
        var step := ParseVideoItem(items[i], p);
        if step.Fail? {
          VideoRunFailed(old(Snapshot()), items, i + 1, p);
          return Fail(step.error);
        }
        i := i + 1;
      }
      assert items[..|items|] == items;
      return Ok(());
    }

    /**
     * The channel loop over the parsed pieces: added to the field one by
     * one, or summed in a local and then stored.
     */
    method AddChannelPieces(values: seq<Option<int>>) returns (ok: bool)
      modifies this
      ensures var sum := AddChannels(if accumulate then old(audioChannels) else 0, values);
              ok == sum.1
              && Snapshot() == if ok || accumulate then old(Snapshot()).(audioChannels := sum.0) else old(Snapshot())
    {
      ghost var start := if accumulate then audioChannels else 0;
      var total := if accumulate then audioChannels else 0;
      var j := 0;
      while j < |values|
        invariant 0 <= j <= |values|
        invariant AddChannels(start, values[..j]) == (total, true)
        invariant Snapshot() == if accumulate then old(Snapshot()).(audioChannels := total) else old(Snapshot())
      {
        var v := values[j];
        AddChannelsStep(start, values, j);
        if v.None? {
          AddChannelsFailed(start, values, j + 1);
          return false;
        }
        total := Wrap32(total + v.value);
        if accumulate {
          audioChannels := total;
        }
        j := j + 1;
      }
      assert values[..|values|] == values;
      audioChannels := total;
      return true;
    }

    /** One pass of the audio loop; false when it threw. */
    method ParseAudioItem(item: String, p: GManPatterns) returns (ok: bool)
      modifies this
      ensures (Snapshot(), ok) == AudioItem(old(Snapshot()), item, p, accumulate)
    {
      var d := Trim(item);
      if d == Stereo {
        audioChannels := 2;
        return true;
      }
      if Found(p.channel, d) {
        var channels := Split(Literal(ChannelsWord), d);
        if channels == [] {
          return false;
        }
        ok := AddChannelPieces(PieceValues(SplitChar('.', channels[0])));
        return ok;
      }
      if p.bitrate(d).None? {
        audioCodec := Some(Upper(d));
      }
      return true;
    }

    /** parseAudioMetadata: every item of the split read in order, the first exception caught and ending the loop. */
    method ParseAudioMetadata(audioData: String, p: GManPatterns)
      modifies this
      ensures Snapshot() == AudioRun(old(Snapshot()), Split(p.avDataDelimiter, audioData), p, accumulate).0
    {
      var items := Split(p.avDataDelimiter, audioData);
      var i := 0;
      while i < |items|
        invariant 0 <= i <= |items|
        invariant AudioRun(old(Snapshot()), items[..i], p, accumulate) == (Snapshot(), true)
      {
        AudioRunStep(old(Snapshot()), items, i, p, accumulate);
        var ok := ParseAudioItem(items[i], p);
        if !ok {
          AudioRunStopped(old(Snapshot()), items, i + 1, p, accumulate);
          return;
        }
        i := i + 1;
      }
      assert items[..|items|] == items;
    }

    /** parseDataItem: the case the key selects; an unknown key throws. */
    method ParseDataItem(kv: MetadataTuple, p: GManPatterns) returns (r: Result<()>)
      modifies this
      ensures r.Fail? <==> MetadataItem(old(Snapshot()), kv, p, accumulate).Fail?
      ensures r.Fail? ==> r.error == MetadataItem(old(Snapshot()), kv, p, accumulate).error
      ensures r.Ok? ==> Snapshot() == MetadataItem(old(Snapshot()), kv, p, accumulate).value
    {
      match KeyOf(KeyString(kv)) {
        case None =>
          return Fail(IllegalArgument);
        case Some(k) =>
          r := ApplyKey(k, Clean(kv.value), p);
      }
    }

    /** One case of the switch on the key. */
    method ApplyKey(k: Key, value: String, p: GManPatterns) returns (r: Result<()>)
      modifies this
      ensures r.Fail? <==> KeyItem(old(Snapshot()), k, value, p, accumulate).Fail?
      ensures r.Fail? ==> r.error == KeyItem(old(Snapshot()), k, value, p, accumulate).error
      ensures r.Ok? ==> Snapshot() == KeyItem(old(Snapshot()), k, value, p, accumulate).value
    {
      match k {
        case Channel =>
          channel := Some(value);
        case Source =>
          source := Some(value);
        case Language =>
          languages := Some(JoinedLanguages(value, p.languageDelimiter));
        case Commentary =>
          languages := Some(JoinedLanguages(value, p.languageDelimiter));
        case Video =>
          r := ParseVideoMetadata(value, p);
          return r;
        case Audio =>
          ParseAudioMetadata(value, p);
        case Duration =>
          duration := Some(value);
        case Size =>
          var size := p.fileSize(value);
          if size.None? && !accumulate {
            return Fail(NullPointer);
          }
          fileSize := size;
        case Release =>
          resolution := Some(ParseResolution(value));
      }
      return Ok(());
    }

    /** The forEach over the tuples: each applied in order until one throws. */
    method ParseDataItems(kvs: seq<MetadataTuple>, p: GManPatterns) returns (r: Result<()>)
      modifies this
      ensures r.Fail? <==> MetadataItems(old(Snapshot()), kvs, p, accumulate).Fail?
      ensures r.Fail? ==> r.error == MetadataItems(old(Snapshot()), kvs, p, accumulate).error
      ensures r.Ok? ==> Snapshot() == MetadataItems(old(Snapshot()), kvs, p, accumulate).value
    {
      var i := 0;
      while i < |kvs|
        invariant 0 <= i <= |kvs|
        invariant MetadataItems(old(Snapshot()), kvs[..i], p, accumulate) == Ok(Snapshot())
      {
        MetadataItemsStep(old(Snapshot()), kvs, i, p, accumulate);
        var step := ParseDataItem(kvs[i], p);
        if step.Fail? {
          MetadataItemsFailed(old(Snapshot()), kvs, i + 1, p, accumulate);
          return Fail(step.error);
        }
        i := i + 1;
      }
      assert kvs[..|kvs|] == kvs;
      return Ok(());
    }
  }

  /** One more video item is that item applied to what the earlier ones gave. */
  lemma VideoRunStep(m: Metadata, items: seq<String>, i: nat, p: GManPatterns)
    requires i < |items| && VideoRun(m, items[..i], p).Ok?
    ensures VideoRun(m, items[..i + 1], p) == VideoItem(VideoRun(m, items[..i], p).value, items[i], p)
  {
    assert items[..i + 1][..i] == items[..i];
  }

  /** Once a prefix of the video items throws, the loop throws that. */
  lemma {:induction false} VideoRunFailed(m: Metadata, items: seq<String>, i: nat, p: GManPatterns)
    requires i <= |items| && VideoRun(m, items[..i], p).Fail?
    ensures VideoRun(m, items, p) == VideoRun(m, items[..i], p)
    decreases |items| - i
  {
    if i < |items| {
      var init := items[..|items| - 1];
      assert init[..i] == items[..i];
      VideoRunFailed(m, init, i, p);
    } else {
      assert items[..i] == items;
    }
  }

  /** One more piece, after pieces that all parsed, is added when it parses and stops the loop otherwise. */
  lemma AddChannelsStep(total: int, values: seq<Option<int>>, j: nat)
    requires j < |values| && AddChannels(total, values[..j]).1
    ensures values[j].None? ==> AddChannels(total, values[..j + 1]) == (AddChannels(total, values[..j]).0, false)
    ensures values[j].Some? ==>
              AddChannels(total, values[..j + 1]) == (Wrap32(AddChannels(total, values[..j]).0 + values[j].value), true)
  {
    assert values[..j + 1][..j] == values[..j];
  }

  /** Once a prefix of the channel pieces fails to parse, the loop ends there. */
  lemma {:induction false} AddChannelsFailed(total: int, values: seq<Option<int>>, j: nat)
    requires j <= |values| && !AddChannels(total, values[..j]).1
    ensures AddChannels(total, values) == AddChannels(total, values[..j])
    decreases |values| - j
  {
    if j < |values| {
      var init := values[..|values| - 1];
      assert init[..j] == values[..j];
      AddChannelsFailed(total, init, j);
    } else {
      assert values[..j] == values;
    }
  }

  /** One more audio item, after items that all ran, is that item applied to their state. */
  lemma AudioRunStep(m: Metadata, items: seq<String>, i: nat, p: GManPatterns, accumulate: bool)
    requires i < |items| && AudioRun(m, items[..i], p, accumulate).1
    ensures AudioRun(m, items[..i + 1], p, accumulate)
            == AudioItem(AudioRun(m, items[..i], p, accumulate).0, items[i], p, accumulate)
  {
    assert items[..i + 1][..i] == items[..i];
  }

  /** Once a prefix of the audio items throws, the rest are skipped. */
  lemma {:induction false} AudioRunStopped(m: Metadata, items: seq<String>, i: nat, p: GManPatterns, accumulate: bool)
    requires i <= |items| && !AudioRun(m, items[..i], p, accumulate).1
    ensures AudioRun(m, items, p, accumulate) == AudioRun(m, items[..i], p, accumulate)
    decreases |items| - i
  {
    if i < |items| {
      var init := items[..|items| - 1];
      assert init[..i] == items[..i];
      AudioRunStopped(m, init, i, p, accumulate);
    } else {
      assert items[..i] == items;
    }
  }

  /** One more item is that item applied to what the earlier ones gave. */
  lemma MetadataItemsStep(m: Metadata, kvs: seq<MetadataTuple>, i: nat, p: GManPatterns, accumulate: bool)
    requires i < |kvs| && MetadataItems(m, kvs[..i], p, accumulate).Ok?
    ensures MetadataItems(m, kvs[..i + 1], p, accumulate)
            == MetadataItem(MetadataItems(m, kvs[..i], p, accumulate).value, kvs[i], p, accumulate)
  {
    assert kvs[..i + 1][..i] == kvs[..i];
  }

  /** Once a prefix of the items throws, the whole parse throws that. */
  lemma {:induction false} MetadataItemsFailed(m: Metadata, kvs: seq<MetadataTuple>, i: nat, p: GManPatterns,
                                               accumulate: bool)
    requires i <= |kvs| && MetadataItems(m, kvs[..i], p, accumulate).Fail?
    ensures MetadataItems(m, kvs, p, accumulate) == MetadataItems(m, kvs[..i], p, accumulate)
    decreases |kvs| - i
  {
    if i < |kvs| {
      var init := kvs[..|kvs| - 1];
      assert init[..i] == kvs[..i];
      MetadataItemsFailed(m, init, i, p, accumulate);
    } else {
      assert kvs[..i] == kvs;
    }
  }

  /**
   * new GManFileMetadata(html, patterns): the items are all split before
   * the first is applied, so a bad tuple leaves no parser; then each is
   * applied in order.
   */
  method NewFileMetadata(html: String, p: GManPatterns, accumulate: bool) returns (r: Result<FileMetadata>)
    ensures r.Fail? <==> ParseMetadata(html, p, accumulate).Fail?
    ensures r.Fail? ==> r.error == ParseMetadata(html, p, accumulate).error
    ensures r.Ok? ==> fresh(r.value) && r.value.metadataStr == html && r.value.accumulate == accumulate
                      && r.value.Snapshot() == ParseMetadata(html, p, accumulate).value
  {
    var items := DataItems(html, p.metadataDelimiter, p.metadataKvDelimiter, IllegalArgument);
    if items.Fail? {
      return Fail(items.error);
    }
    var m := new FileMetadata(html, accumulate);
    var applied := m.ParseDataItems(items.value, p);
    if applied.Fail? {
      return Fail(applied.error);
    }
    return Ok(m);
  }

  // ---------------------------------------------------------------------
  // createFileSource
  // ---------------------------------------------------------------------

  /**
   * The builder of createFileSource: each value copied into its field;
   * nothing sets the identifier or the files. The joined languages text is
   * the one entry of the language list.
   */
  function FileSourceOf(m: Metadata): (r: EventFileSource)
    ensures r.eventFileSrcId.None? && r.eventFiles == []
    ensures r.channel == m.channel && r.source == m.source && r.approximateDuration == m.duration
    ensures r.fileSize == m.fileSize && r.resolution == m.resolution && r.mediaContainer == m.mediaContainer
    ensures r.bitrate == m.bitrate && r.videoCodec == m.videoCodec && r.frameRate == m.frameRate
    ensures r.audioCodec == m.audioCodec && r.audioChannels == m.audioChannels
    ensures r.languages == if m.languages.Some? then [m.languages.value] else []
  {
    EventFileSource(None, m.channel, m.source, m.duration, m.fileSize,
                    if m.languages.Some? then [m.languages.value] else [], [], m.resolution, m.mediaContainer,
                    m.bitrate, m.videoCodec, m.frameRate, m.audioCodec, m.audioChannels)
  }

  /** createFileSource as a value: the exception of the nested parser, or the source built from its values. */
  function FileSourceFor(html: String, p: GManPatterns): Result<EventFileSource>
  {
    var m :- ParseMetadata(html, p, true);
    Ok(FileSourceOf(m))
  }

  /** createFileSource: the nested parser run on the HTML, its values copied into a new source. */
  method CreateFileSource(html: String, p: GManPatterns) returns (r: Result<EventFileSource>)
    ensures r.Fail? <==> ParseMetadata(html, p, true).Fail?
    ensures r.Fail? ==> r.error == ParseMetadata(html, p, true).error
    ensures r.Ok? ==> r.value == FileSourceOf(ParseMetadata(html, p, true).value)
    ensures r == FileSourceFor(html, p)
  {
    var m :- NewFileMetadata(html, p, true);
    return Ok(FileSourceOf(m.Snapshot()));
  }
}
