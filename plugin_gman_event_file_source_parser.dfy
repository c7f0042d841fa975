/**
 * The datasource plugin's Galataman post parser
 * (src/main/java/self/me/matchday/plugin/datasource/galataman/GManEventFileSourceParser.java):
 * the token walk of TokenScan with part labels, where a video link is an
 * "a" element whose href parses as a URL that the file server recognises,
 * and each source is made by createFileSource from its header's HTML.
 *
 * As written, each link's EventFile is added to the list getEventFiles()
 * returns, but the builder createFileSource uses never sets that list, so
 * it is null: the first video link of a source throws NullPointerException,
 * which nothing catches. AsWrittenSource models that; CorrectedSource adds
 * the files to the source, and EventFileSources uses it.
 *
 * The URL parser and FileServerService.isVideoLink are parameters.
 */
module PluginGManEventFileSourceParser {
  import opened Outcome
  import opened JavaString
  import opened Regex
  import opened EventFile
  import opened EventFileSource
  import opened TokenScan
  import opened GManFileMetadata

  const LinkTag: String := "a"

  /** isVideoLink: an "a" element, in any case, whose href parses as a URL the file server takes for a video. */
  predicate IsVideoLink(e: Element, validUrl: String -> bool, isVideoUrl: String -> bool)
  {
    EqualsIgnoreCase(e.tagName, LinkTag) && validUrl(e.href) && isVideoUrl(e.href)
  }

  /** The walk's rules: headers by isSourceData, part identifiers relabel, then video links are taken. */
  function Rules(validUrl: String -> bool, isVideoUrl: String -> bool): (r: LinkRules)
    ensures r.partLabel == PartLabel
    ensures forall e :: r.isSourceData(e) <==> IsSourceData(e)
    ensures forall e :: r.isVideoLink(e) <==> IsVideoLink(e, validUrl, isVideoUrl)
  {
    LinkRules(IsSourceData, PartLabel, e => IsVideoLink(e, validUrl, isVideoUrl))
  }

  /** Every link the walk takes has a URL that parses, so the MalformedURLException handler never runs. */
  lemma LinksAreValid(elems: seq<Element>, validUrl: String -> bool, isVideoUrl: String -> bool)
    ensures AllValid(Links(elems, Rules(validUrl, isVideoUrl)), validUrl)
  {
    var links := Links(elems, Rules(validUrl, isVideoUrl));
    LinksAreVideoLinks(elems, Rules(validUrl, isVideoUrl));
    forall k | 0 <= k < |links|
      ensures validUrl(links[k].href)
    {
      assert links[k] in links;
    }
  }

  /**
   * A source as the code runs: createFileSource first, then, at the first
   * video link, add on the null list of files.
   */
  function AsWrittenSource(p: GManPatterns): Builder<EventFileSource>
  {
    (html: String, links: seq<Link>) =>
      match FileSourceFor(html, p)
      case Fail(e) => Fail(e)
      case Ok(s) => if links == [] then Ok(s) else Fail(NullPointer)
  }

  /** A source as intended: createFileSource, then one EventFile per link added to its files. */
  function CorrectedSource(p: GManPatterns): Builder<EventFileSource>
  {
    (html: String, links: seq<Link>) =>
      match FileSourceFor(html, p)
      case Fail(e) => Fail(e)
      case Ok(s) => Ok(s.(eventFiles := s.eventFiles + LinkFiles(links)))
  }

  /** A corrected source is createFileSource's exception, or its source holding exactly the links' files. */
  lemma CorrectedSourceFiles(p: GManPatterns, html: String, links: seq<Link>)
    ensures FileSourceFor(html, p).Fail? ==> CorrectedSource(p)(html, links) == Fail(FileSourceFor(html, p).error)
    ensures FileSourceFor(html, p).Ok? ==>
              CorrectedSource(p)(html, links) == Ok(FileSourceFor(html, p).value.(eventFiles := LinkFiles(links)))
  {
    if FileSourceFor(html, p).Ok? {
      assert FileSourceFor(html, p).value.eventFiles == [];
      assert [] + LinkFiles(links) == LinkFiles(links);
    }
  }

  /** parseEventSources: every exception escapes, since the one handler is for a URL that always parses. */
  function Finish(w: Walk<EventFileSource>): (r: Result<seq<EventFileSource>>)
    ensures w.stop.None? <==> r == Ok(w.sources)
    ensures r.Fail? ==> w.stop == Some(r.error)
  {
    match w.stop
    case None => Ok(w.sources)
    case Some(e) => Fail(e)
  }

  /** The parser as written. */
  function AsWrittenEventFileSources(doc: seq<Element>, p: GManPatterns, start: Matcher, validUrl: String -> bool,
                                     isVideoUrl: String -> bool): Result<seq<EventFileSource>>
  {
    Finish(WalkDocument(doc, start, Rules(validUrl, isVideoUrl), validUrl, AsWrittenSource(p)))
  }

  /** The parser with the files added to their sources. */
  function EventFileSources(doc: seq<Element>, p: GManPatterns, start: Matcher, validUrl: String -> bool,
                            isVideoUrl: String -> bool): Result<seq<EventFileSource>>
  {
    Finish(WalkDocument(doc, start, Rules(validUrl, isVideoUrl), validUrl, CorrectedSource(p)))
  }

  /** parseEventSources with the files added to their sources. */
  method ParseEventSources(doc: seq<Element>, p: GManPatterns, start: Matcher, validUrl: String -> bool,
                           isVideoUrl: String -> bool) returns (r: Result<seq<EventFileSource>>)
    ensures r == EventFileSources(doc, p, start, validUrl, isVideoUrl)
  {
    var w := WalkSources(doc, start, Rules(validUrl, isVideoUrl), validUrl, CorrectedSource(p));
    if w.stop.Some? {
      return Fail(w.stop.value);
    }
    return Ok(w.sources);
  }

  /** As written, a source is createFileSource's exception, NullPointerException when it has a link, or a source without files. */
  lemma AsWrittenSourceFiles(p: GManPatterns, html: String, links: seq<Link>)
    ensures FileSourceFor(html, p).Fail? ==> AsWrittenSource(p)(html, links) == Fail(FileSourceFor(html, p).error)
    ensures FileSourceFor(html, p).Ok? && links != [] ==> AsWrittenSource(p)(html, links) == Fail(NullPointer)
    ensures AsWrittenSource(p)(html, links).Ok? ==> links == [] && AsWrittenSource(p)(html, links).value.eventFiles == []
  {
  }

  /**
   * As written, a post parses only when no source has a video link, and
   * then no source carries a file.
   */
  lemma AsWrittenLosesFiles(doc: seq<Element>, p: GManPatterns, start: Matcher, validUrl: String -> bool,
                            isVideoUrl: String -> bool)
    requires StartIndex(doc, start, 0).Some?
    ensures var t := StartIndex(doc, start, 0).value;
            var hs := Headers(doc, t, |doc|, Rules(validUrl, isVideoUrl));
            var r := AsWrittenEventFileSources(doc, p, start, validUrl, isVideoUrl);
            r.Ok? ==> |r.value| == |hs|
                      && forall k :: 0 <= k < |hs| ==>
                           Links(Segment(doc, hs[k], Rules(validUrl, isVideoUrl)), Rules(validUrl, isVideoUrl)) == [] && r.value[k].eventFiles == []
  {
    var t := StartIndex(doc, start, 0).value;
    var rules := Rules(validUrl, isVideoUrl);
    var hs := Headers(doc, t, |doc|, rules);
    var w := Scan(doc, t, |doc|, rules, Maker(doc, rules, validUrl, AsWrittenSource(p)));
    ScanOneSourcePerHeader(doc, t, |doc|, rules, Maker(doc, rules, validUrl, AsWrittenSource(p)));
    forall k | 0 <= k < |w.sources|
      ensures Links(Segment(doc, hs[k], rules), rules) == [] && w.sources[k].eventFiles == []
    {
      var links := Links(Segment(doc, hs[k], rules), rules);
      LinksAreValid(Segment(doc, hs[k], rules), validUrl, isVideoUrl);
      AsWrittenSourceFiles(p, doc[hs[k]].html, links);
      assert SourceAt(doc, hs[k], rules, validUrl, AsWrittenSource(p)) == AsWrittenSource(p)(doc[hs[k]].html, links);
    }
  }

  /** As written, a first source whose metadata parses and which has a video link makes the parse throw NullPointerException. */
  lemma AsWrittenThrowsAtFirstLink(doc: seq<Element>, p: GManPatterns, start: Matcher, validUrl: String -> bool,
                                   isVideoUrl: String -> bool)
    requires StartIndex(doc, start, 0).Some?
    requires var hs := Headers(doc, StartIndex(doc, start, 0).value, |doc|, Rules(validUrl, isVideoUrl));
             |hs| > 0 && FileSourceFor(doc[hs[0]].html, p).Ok?
             && Links(Segment(doc, hs[0], Rules(validUrl, isVideoUrl)), Rules(validUrl, isVideoUrl)) != []
    ensures AsWrittenEventFileSources(doc, p, start, validUrl, isVideoUrl) == Fail(NullPointer)
  {
    var t := StartIndex(doc, start, 0).value;
    var rules := Rules(validUrl, isVideoUrl);
    var hs := Headers(doc, t, |doc|, rules);
    var links := Links(Segment(doc, hs[0], rules), rules);
    ScanOneSourcePerHeader(doc, t, |doc|, rules, Maker(doc, rules, validUrl, AsWrittenSource(p)));
    ScanStopCause(doc, t, |doc|, rules, Maker(doc, rules, validUrl, AsWrittenSource(p)));
    LinksAreValid(Segment(doc, hs[0], rules), validUrl, isVideoUrl);
    AsWrittenSourceFiles(p, doc[hs[0]].html, links);
    assert SourceAt(doc, hs[0], rules, validUrl, AsWrittenSource(p)) == Fail(NullPointer);
  }

  /**
   * With the files added, every source the walk makes is its header's
   * createFileSource with one EventFile per video link of its segment, in
   * order, labelled with the part identifier before it; the sources are one
   * per header.
   */
  lemma SourcesHoldTheirFiles(doc: seq<Element>, p: GManPatterns, start: Matcher, validUrl: String -> bool,
                              isVideoUrl: String -> bool)
    requires StartIndex(doc, start, 0).Some?
    ensures var t := StartIndex(doc, start, 0).value;
            var rules := Rules(validUrl, isVideoUrl);
            var hs := Headers(doc, t, |doc|, rules);
            var r := EventFileSources(doc, p, start, validUrl, isVideoUrl);
            r.Ok? ==> |r.value| == |hs|
                      && forall k :: 0 <= k < |hs| ==>
                           && FileSourceFor(doc[hs[k]].html, p).Ok?
                           && r.value[k] == FileSourceFor(doc[hs[k]].html, p).value
                                              .(eventFiles := LinkFiles(Links(Segment(doc, hs[k], rules), rules)))
  {
    var t := StartIndex(doc, start, 0).value;
    var rules := Rules(validUrl, isVideoUrl);
    var hs := Headers(doc, t, |doc|, rules);
    var w := Scan(doc, t, |doc|, rules, Maker(doc, rules, validUrl, CorrectedSource(p)));
    ScanOneSourcePerHeader(doc, t, |doc|, rules, Maker(doc, rules, validUrl, CorrectedSource(p)));
    forall k | 0 <= k < |w.sources|
      ensures FileSourceFor(doc[hs[k]].html, p).Ok?
      ensures w.sources[k] == FileSourceFor(doc[hs[k]].html, p).value.(eventFiles := LinkFiles(Links(Segment(doc, hs[k], rules), rules)))
    {
      var links := Links(Segment(doc, hs[k], rules), rules);
      LinksAreValid(Segment(doc, hs[k], rules), validUrl, isVideoUrl);
      CorrectedSourceFiles(p, doc[hs[k]].html, links);
      assert SourceAt(doc, hs[k], rules, validUrl, CorrectedSource(p)) == CorrectedSource(p)(doc[hs[k]].html, links);
    }
  }

  /** With the files added, the only exception that escapes is a header's createFileSource exception. */
  lemma OnlyMetadataExceptions(doc: seq<Element>, p: GManPatterns, start: Matcher, validUrl: String -> bool,
                               isVideoUrl: String -> bool)
    requires StartIndex(doc, start, 0).Some?
    ensures var t := StartIndex(doc, start, 0).value;
            var hs := Headers(doc, t, |doc|, Rules(validUrl, isVideoUrl));
            var r := EventFileSources(doc, p, start, validUrl, isVideoUrl);
            r.Fail? ==> exists k :: 0 <= k < |hs| && FileSourceFor(doc[hs[k]].html, p) == Fail(r.error)
  {
    var t := StartIndex(doc, start, 0).value;
    var rules := Rules(validUrl, isVideoUrl);
    var hs := Headers(doc, t, |doc|, rules);
    var w := Scan(doc, t, |doc|, rules, Maker(doc, rules, validUrl, CorrectedSource(p)));
    ScanStopCause(doc, t, |doc|, rules, Maker(doc, rules, validUrl, CorrectedSource(p)));
    if w.stop.Some? {
      var k := |w.sources|;
      LinksAreValid(Segment(doc, hs[k], rules), validUrl, isVideoUrl);
      assert SourceAt(doc, hs[k], rules, validUrl, CorrectedSource(p)) == Fail(w.stop.value);
    }
  }

  /** A post without a start element has no sources. */
  lemma NoStartNoSources(doc: seq<Element>, p: GManPatterns, start: Matcher, validUrl: String -> bool,
                         isVideoUrl: String -> bool)
    requires StartIndex(doc, start, 0).None?
    ensures EventFileSources(doc, p, start, validUrl, isVideoUrl) == Ok([])
    ensures AsWrittenEventFileSources(doc, p, start, validUrl, isVideoUrl) == Ok([])
  {
  }
}
