/**
 * The Galataman blog post (feed/blogger/galataman/GalatamanPost.java): its
 * builder runs BloggerPost's readers, then parseMatchSources, which walks
 * the content's siblings from the start element, labels each video link
 * with the last part identifier before it, and builds a
 * GalatamanEventFileSource from every header's HTML and files; then the
 * post's constructor keeps the sources and parses the event from the title
 * and the publication time.
 *
 * parseMatchSources rethrows a malformed URL wrapped in a
 * GalatamanPostParseException, but only logs any other runtime exception
 * (its rethrow is commented out): a source the builder rejects ends the walk
 * quietly, and the post keeps the sources made before it.
 */
module GalatamanBloggerPost {
  import opened Outcome
  import opened JavaString
  import opened Domain
  import opened EventFile
  import opened TokenScan
  import opened GalatamanMetadata
  import opened GalatamanBloggerSource
  import opened GalatamanPostParts
  import GalatamanEventDataParser

  type Source = GalatamanEventFileSource<EventFile>

  /** How this post reads a source: part identifiers are looked for before links. */
  function Rules(p: PagePatterns): (r: LinkRules)
    ensures r.isSourceData == p.isSourceData && r.isVideoLink == p.isVideoLink
    ensures r.partLabel == PartLabel
  {
    LinkRules(p.isSourceData, PartLabel, p.isVideoLink)
  }

  /** `new GalatamanEventFileSourceBuilder(metadata, eventFiles).build()`, the files made from the links. */
  function BuildSource(d: Delimiters): Builder<Source>
  {
    (html: String, links: seq<Link>) => Build(html, LinkFiles(links), d)
  }

  /**
   * parseMatchSources' handlers: a malformed URL is rethrown wrapped, any
   * other exception is swallowed and the sources made so far are kept.
   */
  function Settle(w: Walk<Source>): (r: Result<seq<Source>>)
    ensures r.Fail? <==> w.stop == Some(MalformedUrl)
    ensures r.Fail? ==> r.error == PostParse(Some(MalformedUrl))
    ensures r.Ok? ==> r.value == w.sources
  {
    if w.stop == Some(MalformedUrl) then Fail(PostParse(Some(MalformedUrl))) else Ok(w.sources)
  }

  /** The sources parseMatchSources adds for a post whose content parses to the siblings doc. */
  function MatchSources(doc: seq<Element>, p: PagePatterns, d: Delimiters, validUrl: String -> bool)
    : Result<seq<Source>>
  {
    Settle(WalkDocument(doc, p.startOfSource, Rules(p), validUrl, BuildSource(d)))
  }

  /** The builder: BloggerPost's readers' outcome, and the list of sources parseMatchSources adds to. */
  class GalatamanPostBuilder {
    const fields: Result<BloggerFields>
    var sources: seq<Source>

    constructor(fields: Result<BloggerFields>)
      ensures this.fields == fields && sources == []
    {
      this.fields := fields;
      sources := [];
    }

    /**
     * parseMatchSources over the siblings of the parsed content: the sources
     * of the walk are added, and the exception it rethrows, if any, returned.
     */
    method ParseMatchSources(doc: seq<Element>, p: PagePatterns, d: Delimiters, validUrl: String -> bool)
      returns (thrown: Option<Exception>)
      modifies this
      ensures sources == old(sources) + WalkDocument(doc, p.startOfSource, Rules(p), validUrl, BuildSource(d)).sources
      ensures thrown.Some? <==> MatchSources(doc, p, d, validUrl).Fail?
      ensures thrown.Some? ==> thrown.value == MatchSources(doc, p, d, validUrl).error
    {
      var w := WalkSources(doc, p.startOfSource, Rules(p), validUrl, BuildSource(d));
      sources := sources + w.sources;
      if w.stop == Some(MalformedUrl) {
        thrown := Some(PostParse(Some(MalformedUrl)));
      } else {
        thrown := None;
      }
    }
  }

  /** A built post: BloggerPost's fields, the event and the unmodifiable list of sources. */
  datatype GalatamanPost = GalatamanPost(fields: BloggerFields, event: Event, eventFileSources: seq<Source>)

  /**
   * build(): BloggerPost's readers, then parseMatchSources over the parsed
   * content, then the constructor, whose event parser reads the title and
   * the publication time; the first exception escapes.
   */
  function PostOf(fields: Result<BloggerFields>, parseHtml: String -> seq<Element>, p: PagePatterns,
                  d: Delimiters, validUrl: String -> bool): (r: Result<GalatamanPost>)
    ensures fields.Fail? ==> r == Fail(fields.error)
    ensures fields.Ok? && MatchSources(parseHtml(fields.value.content), p, d, validUrl).Fail? ==>
              r == Fail(PostParse(Some(MalformedUrl)))
    ensures r.Ok? <==>
              && fields.Ok?
              && MatchSources(parseHtml(fields.value.content), p, d, validUrl).Ok?
              && GalatamanEventDataParser.GetEvent(fields.value.title, fields.value.published).Ok?
    ensures r.Ok? ==>
              && r.value.fields == fields.value
              && r.value.eventFileSources == MatchSources(parseHtml(fields.value.content), p, d, validUrl).value
              && r.value.event == GalatamanEventDataParser.GetEvent(fields.value.title, fields.value.published).value
  {
    var f :- fields;
    var sources :- MatchSources(parseHtml(f.content), p, d, validUrl);
    var event :- GalatamanEventDataParser.GetEvent(f.title, f.published);
    Ok(GalatamanPost(f, event, sources))
  }

  /** `new GalatamanPostBuilder(bloggerPost).build()`. */
  method BuildPost(fields: Result<BloggerFields>, parseHtml: String -> seq<Element>, p: PagePatterns,
                   d: Delimiters, validUrl: String -> bool) returns (r: Result<GalatamanPost>)
    ensures r == PostOf(fields, parseHtml, p, d, validUrl)
  {
    var builder := new GalatamanPostBuilder(fields);
    if builder.fields.Fail? {
      return Fail(builder.fields.error);
    }
    var f := builder.fields.value;
    var doc := parseHtml(f.content);
    var thrown := builder.ParseMatchSources(doc, p, d, validUrl);
    if thrown.Some? {
      return Fail(thrown.value);
    }
    assert builder.sources == MatchSources(doc, p, d, validUrl).value;
    var event := GalatamanEventDataParser.GetEvent(f.title, f.published);
    if event.Fail? {
      return Fail(event.error);
    }
    return Ok(GalatamanPost(f, event.value, builder.sources));
  }

  /**
   * The sources of a post are those of its headers from the start element
   * on, in order, each built from its header's HTML and the files of the
   * links after it; when there are fewer sources than headers, the header
   * after the last source has valid URLs and metadata the builder rejects.
   */
  lemma SourcesFollowHeaders(doc: seq<Element>, p: PagePatterns, d: Delimiters, validUrl: String -> bool)
    requires StartIndex(doc, p.startOfSource, 0).Some?
    ensures var r := MatchSources(doc, p, d, validUrl);
            var hs := Headers(doc, StartIndex(doc, p.startOfSource, 0).value, |doc|, Rules(p));
            r.Ok? ==>
              && |r.value| <= |hs|
              && (forall k :: 0 <= k < |r.value| ==>
                    var links := Links(Segment(doc, hs[k], Rules(p)), Rules(p));
                    AllValid(links, validUrl) && Build(doc[hs[k]].html, LinkFiles(links), d) == Ok(r.value[k]))
              && (|r.value| < |hs| ==>
                    var links := Links(Segment(doc, hs[|r.value|], Rules(p)), Rules(p));
                    AllValid(links, validUrl) && ParseFields(doc[hs[|r.value|]].html, Config(d)).Fail?)
  {
    WalkHeaders(doc, p.startOfSource, Rules(p), validUrl, BuildSource(d));
  }

  /**
   * parseMatchSources throws exactly when some header from the start
   * element on has a link whose URL does not parse, and every header
   * before it was built.
   */
  lemma FailsOnMalformedUrl(doc: seq<Element>, p: PagePatterns, d: Delimiters, validUrl: String -> bool)
    requires StartIndex(doc, p.startOfSource, 0).Some?
    ensures var hs := Headers(doc, StartIndex(doc, p.startOfSource, 0).value, |doc|, Rules(p));
            MatchSources(doc, p, d, validUrl).Fail? <==>
              exists k :: 0 <= k < |hs|
                && !AllValid(Links(Segment(doc, hs[k], Rules(p)), Rules(p)), validUrl)
                && forall j :: 0 <= j < k ==> SourceAt(doc, hs[j], Rules(p), validUrl, BuildSource(d)).Ok?
  {
    var w := WalkDocument(doc, p.startOfSource, Rules(p), validUrl, BuildSource(d));
    var hs := Headers(doc, StartIndex(doc, p.startOfSource, 0).value, |doc|, Rules(p));
    WalkHeaders(doc, p.startOfSource, Rules(p), validUrl, BuildSource(d));
    var m := |w.sources|;
    if w.stop == Some(MalformedUrl) {
      var links := Links(Segment(doc, hs[m], Rules(p)), Rules(p));
      BuilderNeverMalformed(doc[hs[m]].html, links, d);
      assert !AllValid(links, validUrl);
    }
    forall k | 0 <= k < |hs| && !AllValid(Links(Segment(doc, hs[k], Rules(p)), Rules(p)), validUrl)
                && forall j :: 0 <= j < k ==> SourceAt(doc, hs[j], Rules(p), validUrl, BuildSource(d)).Ok?
      ensures w.stop == Some(MalformedUrl)
    {
      assert SourceAt(doc, hs[k], Rules(p), validUrl, BuildSource(d)) == Fail(MalformedUrl);
      assert m <= k;
      assert m == k;
    }
  }

  /** The source builder never throws a MalformedURLException. */
  lemma BuilderNeverMalformed(html: String, links: seq<Link>, d: Delimiters)
    ensures BuildSource(d)(html, links) != Fail(MalformedUrl)
  {
  }

  /** A post without a start element has no sources. */
  lemma NoStartNoSources(doc: seq<Element>, p: PagePatterns, d: Delimiters, validUrl: String -> bool)
    requires StartIndex(doc, p.startOfSource, 0).None?
    ensures MatchSources(doc, p, d, validUrl) == Ok([])
  {
  }
}
