/**
 * What the three GalatamanPost builders share. Each extends BloggerPost's
 * builder, whose JSON readers (BloggerPost is not part of this model) parse
 * the post's ID, publication time, title, link and content, throwing
 * InvalidBloggerPostException when one is missing, then its last update and
 * categories; a builder here receives the outcome of those readers. The
 * page patterns come from each post's GalatamanPattern holder, which is not
 * part of this model either, so they are parameters.
 */
module GalatamanPostParts {
  import opened Outcome
  import opened JavaString
  import opened Regex
  import opened Domain
  import opened TokenScan

  /** The fields BloggerPost's builder parses from the post's JSON. */
  datatype BloggerFields = BloggerFields(
    bloggerPostId: String,
    published: DateTime,
    title: String,
    link: String,
    content: String,
    lastUpdated: Option<DateTime>,
    categories: seq<String>)

  /**
   * START_OF_SOURCE, isSourceData and isVideoLink of a GalatamanPattern
   * holder, over the siblings of the post's parsed content.
   */
  datatype PagePatterns = PagePatterns(startOfSource: Matcher, isSourceData: Element -> bool,
                                       isVideoLink: Element -> bool)

  /** How the two feed posts read a source: their headers and links, and no part labels. */
  function UrlRules(p: PagePatterns): (r: LinkRules)
    ensures r.isSourceData == p.isSourceData && r.isVideoLink == p.isVideoLink
    ensures forall html :: r.partLabel(html).None?
  {
    LinkRules(p.isSourceData, NoPartLabel, p.isVideoLink)
  }

  /** `new URL(href)` for each link, in order; a URL is modelled by its text. */
  function Hrefs(links: seq<Link>): (r: seq<String>)
    ensures |r| == |links|
    ensures forall k :: 0 <= k < |r| ==> r[k] == links[k].href
  {
    if links == [] then [] else Hrefs(links[..|links| - 1]) + [links[|links| - 1].href]
  }

  /**
   * The two feed posts' handlers: a MalformedURLException and a
   * RuntimeException alike are wrapped in a GalatamanPostParseException and
   * rethrown, so a walk that stopped throws and one that did not yields its
   * sources.
   */
  function WrapStop<S>(w: Walk<S>): (r: Result<seq<S>>)
    ensures r.Ok? <==> w.stop.None?
    ensures r.Ok? ==> r.value == w.sources
    ensures r.Fail? ==> r.error == PostParse(w.stop)
  {
    match w.stop
    case None => Ok(w.sources)
    case Some(e) => Fail(PostParse(Some(e)))
  }

  /** A feed post's source maker, given the header's HTML and the URLs of its links. */
  type Processor<S> = (String, seq<String>) -> Result<S>

  /** The walk's builder: the processor over the links' URLs. */
  function UrlBuilder<S>(process: Processor<S>): Builder<S>
  {
    (html: String, links: seq<Link>) => process(html, Hrefs(links))
  }

  /** The sources a feed post's parseMatchSources adds for a post whose content parses to the siblings doc. */
  function UrlSources<S>(doc: seq<Element>, p: PagePatterns, validUrl: String -> bool, process: Processor<S>)
    : Result<seq<S>>
  {
    WrapStop(WalkDocument(doc, p.startOfSource, UrlRules(p), validUrl, UrlBuilder(process)))
  }

  /**
   * A feed post's sources are one per header from the start element on, in
   * order, each made by the processor from its header's HTML and the URLs of
   * the video links up to the next header; the walk throws exactly when some
   * header has a URL that does not parse or a source the processor rejects,
   * with the first such header's exception wrapped.
   */
  lemma UrlSourcesFollowHeaders<S>(doc: seq<Element>, p: PagePatterns, validUrl: String -> bool, process: Processor<S>)
    requires StartIndex(doc, p.startOfSource, 0).Some?
    ensures var r := UrlSources(doc, p, validUrl, process);
            var hs := Headers(doc, StartIndex(doc, p.startOfSource, 0).value, |doc|, UrlRules(p));
            r.Ok? ==>
              && |r.value| == |hs|
              && forall k :: 0 <= k < |hs| ==>
                   var links := Links(Segment(doc, hs[k], UrlRules(p)), UrlRules(p));
                   AllValid(links, validUrl) && process(doc[hs[k]].html, Hrefs(links)) == Ok(r.value[k])
    ensures var r := UrlSources(doc, p, validUrl, process);
            var hs := Headers(doc, StartIndex(doc, p.startOfSource, 0).value, |doc|, UrlRules(p));
            r.Fail? ==>
              exists k :: 0 <= k < |hs|
                && (forall j :: 0 <= j < k ==> SourceAt(doc, hs[j], UrlRules(p), validUrl, UrlBuilder(process)).Ok?)
                && var links := Links(Segment(doc, hs[k], UrlRules(p)), UrlRules(p));
                   if AllValid(links, validUrl) then
                     process(doc[hs[k]].html, Hrefs(links)).Fail?
                     && r.error == PostParse(Some(process(doc[hs[k]].html, Hrefs(links)).error))
                   else r.error == PostParse(Some(MalformedUrl))
  {
    var w := WalkDocument(doc, p.startOfSource, UrlRules(p), validUrl, UrlBuilder(process));
    var hs := Headers(doc, StartIndex(doc, p.startOfSource, 0).value, |doc|, UrlRules(p));
    WalkHeaders(doc, p.startOfSource, UrlRules(p), validUrl, UrlBuilder(process));
    if w.stop.Some? {
      var m := |w.sources|;
      assert forall j :: 0 <= j < m ==> SourceAt(doc, hs[j], UrlRules(p), validUrl, UrlBuilder(process)).Ok?;
    }
  }

  /**
   * The builder of a feed post: BloggerPost's readers' outcome, and the list
   * of sources parseMatchSources adds to.
   */
  class FeedPostBuilder<S> {
    const fields: Result<BloggerFields>
    var sources: seq<S>

    constructor(fields: Result<BloggerFields>)
      ensures this.fields == fields && sources == []
    {
      this.fields := fields;
      sources := [];
    }

    /**
     * parseMatchSources over the siblings of the parsed content: the sources
     * the walk made are added, and the exception it rethrows, if any,
     * returned.
     */
    method ParseMatchSources(doc: seq<Element>, p: PagePatterns, validUrl: String -> bool, process: Processor<S>)
      returns (thrown: Option<Exception>)
      modifies this
      ensures sources == old(sources) + WalkDocument(doc, p.startOfSource, UrlRules(p), validUrl, UrlBuilder(process)).sources
      ensures thrown.Some? <==> UrlSources(doc, p, validUrl, process).Fail?
      ensures thrown.Some? ==> thrown.value == UrlSources(doc, p, validUrl, process).error
      ensures thrown.None? ==> sources == old(sources) + UrlSources(doc, p, validUrl, process).value
    {
      var w := WalkSources(doc, p.startOfSource, UrlRules(p), validUrl, UrlBuilder(process));
      sources := sources + w.sources;
      if w.stop.Some? {
        thrown := Some(PostParse(w.stop));
      } else {
        thrown := None;
      }
    }
  }
}
