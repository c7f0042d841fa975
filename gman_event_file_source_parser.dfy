/**
 * The Blogger Galataman source parser
 * (main/java/self/me/matchday/feed/blogger/galataman/GManEventFileSourceParser.java):
 * its patterns (GalatamanPattern), the metadata parser nested in it, which
 * is the list-based builder of GalatamanMetadata configured with
 * InvalidMetadataException for both a bad tuple and an unknown key, and
 * parseMatchSources, the token walk of TokenScan whose sources are built
 * from that metadata and the links found. A link whose URL does not parse
 * ends the walk and keeps the sources made so far; an exception of the
 * metadata parser is not caught.
 *
 * The EventFile and EventFileSource classes of this tree are not part of
 * this model: a file is its part label and its URL (a Link), and the source
 * is the GManEventFileSource datatype below. The ICD URL pattern is a
 * parameter, and so is whether a URL parses.
 */
module GManEventFileSourceParser {
  import opened Outcome
  import opened JavaString
  import opened Regex
  import opened EventFile
  import opened EventFileSource
  import opened GalatamanMetadata
  import opened TokenScan

  // ---------------------------------------------------------------------
  // GalatamanPattern
  // ---------------------------------------------------------------------

  predicate IsUnderscore(c: char) { c == '_' }

  /** START_OF_SOURCE, "__*": an underscore and any more after it, the same matches as "_+". */
  const StartOfSource: Matcher := Plus(IsUnderscore)

  /** The start pattern finds in a text exactly when the text holds an underscore. */
  lemma StartOfSourceFinds(s: String)
    ensures Found(StartOfSource, s) <==> exists k :: 0 <= k < |s| && s[k] == '_'
  {
    FoundIff(StartOfSource, s);
    if exists k :: 0 <= k < |s| && s[k] == '_' {
      var k :| 0 <= k < |s| && s[k] == '_';
      assert MatchEnd(StartOfSource, s, k).Some?;
    }
  }

  const BlueSpan: String := "<span style=\"color: blue;\">"

  /** METADATA_ITEM_DELIMITER, `<span style="color: blue;">(\[)?`: the opening tag and a '[' right after it if there is one. */
  const ItemDelimiter: Matcher :=
    (s: String, i: nat) =>
      if !OccursAt(s, BlueSpan, i) then None
      else if i + |BlueSpan| < |s| && s[i + |BlueSpan|] == '[' then Some(i + |BlueSpan| + 1)
      else Some(i + |BlueSpan|)

  const SpanClose: String := "</span>:"
  const SpanOpen: String := "<span "

  /** `(])?</span>:`: the closing tag and colon, with a ']' before them taken when there is one. */
  function KvHead(s: String, i: nat): (r: Option<nat>)
    ensures r.Some? ==> i < r.value <= |s|
  {
    if i < |s| && s[i] == ']' && OccursAt(s, SpanClose, i + 1) then Some(i + 1 + |SpanClose|)
    else if OccursAt(s, SpanClose, i) then Some(i + |SpanClose|)
    else None
  }

  /**
   * METADATA_KV_DELIMITER, `(])?</span>:(<span [^>]*>)?`: the head, then an
   * opening span tag up to its first '>' when there is a complete one.
   */
  const KvDelimiter: Matcher :=
    (s: String, i: nat) =>
      match KvHead(s, i)
      case None => None
      case Some(e) =>
        if OccursAt(s, SpanOpen, e) && FirstClose(s, e + |SpanOpen|).Some?
        then Some(FirstClose(s, e + |SpanOpen|).value + 1)
        else Some(e)

  predicate IsLanguageDelimiter(c: char) { IsDigit(c) || c == '.' || c == '*' || c == ' ' || c == '/' }

  /** LANGUAGE_DELIMITER, `[\d.* ]|/`: one digit, '.', '*', space or '/'. */
  const LanguageDelimiter: Matcher := CharClass(IsLanguageDelimiter)

  const AvSeparator: char := '‖'

  predicate IsAvSeparator(c: char) { c == AvSeparator }

  /** AV_DATA_DELIMITER, "‖". */
  const AvDelimiter: Matcher := CharClass(IsAvSeparator)

  /** isVideoLink: an "a" element whose href the ICD URL pattern finds in. */
  predicate IsVideoLink(icdUrl: Matcher, e: Element)
  {
    e.tagName == "a" && Found(icdUrl, e.href)
  }

  /** How parseMatchSources reads the elements of a source: headers by isSourceData, part identifiers first, then video links. */
  function Rules(icdUrl: Matcher): (r: LinkRules)
    ensures r.partLabel == PartLabel
    ensures forall e :: r.isSourceData(e) <==> IsSourceData(e)
    ensures forall e :: r.isVideoLink(e) <==> IsVideoLink(icdUrl, e)
  {
    LinkRules(IsSourceData, PartLabel, e => IsVideoLink(icdUrl, e))
  }

  // ---------------------------------------------------------------------
  // The nested metadata parser
  // ---------------------------------------------------------------------

  /**
   * The nested GManFileSourceMetadataParser: the item and key/value
   * delimiters above, InvalidMetadataException for a bad tuple and for an
   * unknown key, and RELEASE read by parseResolution.
   */
  const Config: BuilderConfig<Resolution> :=
    BuilderConfig(ItemDelimiter, KvDelimiter, LanguageDelimiter, AvDelimiter, InvalidMetadata, InvalidMetadata,
                  ParseResolution)

  /** A key free of ']' and '<' and a value free of them either side of "</span>:" make that tuple. */
  lemma KvRoundTrip(key: String, value: String)
    requires value != []
    requires forall k :: 0 <= k < |key| ==> key[k] != ']' && key[k] != '<'
    requires forall k :: 0 <= k < |value| ==> value[k] != ']' && value[k] != '<'
    ensures NewMetadataTuple(key + SpanClose + value, KvDelimiter, InvalidMetadata) == Ok(MetadataTuple(key, value))
  {
    var s := key + SpanClose + value;
    forall k | 0 <= k < |key| ensures MatchEnd(KvDelimiter, s, k).None? {
      assert s[k] == key[k];
    }
    assert s[|key|..|key| + |SpanClose|] == SpanClose;
    assert s[|key|] == '<';
    assert KvHead(s, |key|) == Some(|key| + |SpanClose|);
    assert s[|key| + |SpanClose|] == value[0];
    assert !OccursAt(s, SpanOpen, |key| + |SpanClose|);
    forall k | |key| + |SpanClose| <= k ensures MatchEnd(KvDelimiter, s, k).None? {
      if k < |s| {
        assert s[k] == value[k - |key| - |SpanClose|];
      }
    }
    TupleRoundTrip(KvDelimiter, key, SpanClose, value, InvalidMetadata);
  }

  /** A language list has no delimiter character left in any of its entries. */
  lemma LanguagesHaveNoDelimiter(value: String)
    ensures forall i, k :: 0 <= i < |Languages(value, LanguageDelimiter)| && 0 <= k < |Languages(value, LanguageDelimiter)[i]|
              ==> !IsLanguageDelimiter(Languages(value, LanguageDelimiter)[i][k])
  {
    var parts := Split(LanguageDelimiter, value);
    SplitClassFree(IsLanguageDelimiter, value);
    DropBlankMembers(parts);
    forall i, k | 0 <= i < |DropBlank(parts)| && 0 <= k < |DropBlank(parts)[i]|
      ensures !IsLanguageDelimiter(DropBlank(parts)[i][k])
    {
      assert DropBlank(parts)[i] in parts;
    }
  }

  // ---------------------------------------------------------------------
  // The source and parseMatchSources
  // ---------------------------------------------------------------------

  /** GManEventFileSource: the metadata parser's values and the source's files. */
  datatype GManEventFileSource = GManEventFileSource(channel: Option<String>, source: Option<String>,
                                                     approximateDuration: Option<String>,
                                                     approximateFileSize: Option<String>,
                                                     resolution: Option<Resolution>, languages: seq<String>,
                                                     videoData: seq<String>, audioData: seq<String>,
                                                     eventFiles: seq<Link>)

  /** new GManEventFileSource(fromHTML(metadata), eventFiles): the parsed metadata and the files, unchanged. */
  function NewSource(metadata: String, files: seq<Link>): (r: Result<GManEventFileSource>)
    ensures r.Fail? <==> ParseFields(metadata, Config).Fail?
    ensures r.Fail? ==> r.error == InvalidMetadata
    ensures r.Ok? ==>
      var f := ParseFields(metadata, Config).value;
      && r.value.eventFiles == files && r.value.languages == f.languages
      && r.value.videoData == f.videoData && r.value.audioData == f.audioData
      && r.value.channel == f.channel && r.value.source == f.source && r.value.resolution == f.release
      && r.value.approximateDuration == f.duration && r.value.approximateFileSize == f.size
  {
    ParseFieldsError(metadata, Config);
    var f :- ParseFields(metadata, Config);
    Ok(GManEventFileSource(f.channel, f.source, f.duration, f.size, f.release, f.languages, f.videoData,
                           f.audioData, files))
  }

  /** What parseMatchSources makes of a walk: a malformed URL ends it quietly, anything else propagates. */
  function Settle(w: Walk<GManEventFileSource>): (r: Result<seq<GManEventFileSource>>)
    ensures w.stop.None? || w.stop == Some(MalformedUrl) <==> r == Ok(w.sources)
    ensures r.Fail? ==> w.stop == Some(r.error) && r.error != MalformedUrl
  {
    match w.stop
    case None => Ok(w.sources)
    case Some(e) => if e == MalformedUrl then Ok(w.sources) else Fail(e)
  }

  /** The sources of a post's siblings, or the exception that escaped the constructor. */
  function EventFileSources(doc: seq<Element>, icdUrl: Matcher, validUrl: String -> bool)
    : Result<seq<GManEventFileSource>>
  {
    Settle(WalkDocument(doc, StartOfSource, Rules(icdUrl), validUrl, NewSource))
  }

  /**
   * parseMatchSources as the constructor runs it: the walk, its sources kept
   * when a malformed URL stops it, its exception thrown otherwise.
   */
  method ParseMatchSources(doc: seq<Element>, icdUrl: Matcher, validUrl: String -> bool)
    returns (r: Result<seq<GManEventFileSource>>)
    ensures r == EventFileSources(doc, icdUrl, validUrl)
  {
    var w := WalkSources(doc, StartOfSource, Rules(icdUrl), validUrl, NewSource);
    match w.stop {
      case None =>
        r := Ok(w.sources);
      case Some(e) =>
        if e == MalformedUrl {
          r := Ok(w.sources);
        } else {
          r := Fail(e);
        }
    }
  }

  /** The only exception that escapes is the metadata parser's, and a document without a start element has no sources. */
  lemma EventFileSourcesFail(doc: seq<Element>, icdUrl: Matcher, validUrl: String -> bool)
    ensures EventFileSources(doc, icdUrl, validUrl).Fail? ==> EventFileSources(doc, icdUrl, validUrl).error == InvalidMetadata
    ensures StartIndex(doc, StartOfSource, 0).None? ==> EventFileSources(doc, icdUrl, validUrl) == Ok([])
  {
    match StartIndex(doc, StartOfSource, 0)
    case None =>
    case Some(t) => ScanStops(doc, t, |doc|, icdUrl, validUrl);
  }

  /** A walk over this parser's sources stops only on a malformed URL or an invalid metadata item. */
  lemma {:induction false} ScanStops(doc: seq<Element>, from: nat, upto: nat, icdUrl: Matcher, validUrl: String -> bool)
    requires from <= upto <= |doc|
    ensures var w := Scan(doc, from, upto, Rules(icdUrl), Maker(doc, Rules(icdUrl), validUrl, NewSource));
            w.stop.None? || w.stop == Some(MalformedUrl) || w.stop == Some(InvalidMetadata)
    decreases upto
  {
    if upto > from {
      ScanStops(doc, from, upto - 1, icdUrl, validUrl);
    }
  }

  /**
   * Every source made holds the links after its own header, in order, each
   * with the last part identifier before it (DEFAULT before any), and the
   * metadata of that header; the sources are one per header, in document
   * order, up to where the walk stopped.
   */
  lemma SourcesFollowHeaders(doc: seq<Element>, icdUrl: Matcher, validUrl: String -> bool)
    requires StartIndex(doc, StartOfSource, 0).Some?
    ensures var t := StartIndex(doc, StartOfSource, 0).value;
            var w := WalkDocument(doc, StartOfSource, Rules(icdUrl), validUrl, NewSource);
            var hs := Headers(doc, t, |doc|, Rules(icdUrl));
            && |w.sources| <= |hs|
            && (w.stop.None? ==> |w.sources| == |hs|)
            && forall k :: 0 <= k < |w.sources| ==>
                 && NewSource(doc[hs[k]].html, Links(Segment(doc, hs[k], Rules(icdUrl)), Rules(icdUrl))) == Ok(w.sources[k])
                 && w.sources[k].eventFiles == Links(Segment(doc, hs[k], Rules(icdUrl)), Rules(icdUrl))
  {
    var t := StartIndex(doc, StartOfSource, 0).value;
    var w := WalkDocument(doc, StartOfSource, Rules(icdUrl), validUrl, NewSource);
    var hs := Headers(doc, t, |doc|, Rules(icdUrl));
    ScanOneSourcePerHeader(doc, t, |doc|, Rules(icdUrl), Maker(doc, Rules(icdUrl), validUrl, NewSource));
    forall k | 0 <= k < |w.sources|
      ensures NewSource(doc[hs[k]].html, Links(Segment(doc, hs[k], Rules(icdUrl)), Rules(icdUrl))) == Ok(w.sources[k])
    {
      assert SourceAt(doc, hs[k], Rules(icdUrl), validUrl, NewSource) == Ok(w.sources[k]);
    }
  }

  /** Every file of a source is a video link of its segment, labelled DEFAULT when the segment has no part identifier. */
  lemma FilesAreVideoLinks(doc: seq<Element>, t: nat, icdUrl: Matcher)
    requires t < |doc|
    ensures var seg := Segment(doc, t, Rules(icdUrl));
            var links := Links(seg, Rules(icdUrl));
            && (forall l :: l in links ==> exists k :: 0 <= k < |seg| && IsVideoLink(icdUrl, seg[k]) && l.href == seg[k].href)
            && ((forall k :: 0 <= k < |seg| ==> !IsPartIdentifier(seg[k].html)) ==> forall l :: l in links ==> l.part == DEFAULT)
  {
    var seg := Segment(doc, t, Rules(icdUrl));
    LinksAreVideoLinks(seg, Rules(icdUrl));
  }
}
