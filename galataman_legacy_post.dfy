/**
 * The post of the older Galataman feed (feed/Galataman/GalatamanPost.java):
 * its builder runs BloggerPost's readers, then parseMatchSources, which
 * walks the content's siblings from the start element and hands every
 * header's HTML and the URLs of the video links after it to the source
 * processor it was given, wrapping any exception in a
 * GalatamanPostParseException; the post keeps the sources. The processor's
 * implementations are not part of this model, so it is a parameter.
 */
module GalatamanLegacyPost {
  import opened Outcome
  import opened JavaString
  import opened TokenScan
  import opened GalatamanPostParts

  /** A built post: BloggerPost's fields and the unmodifiable list of sources. */
  datatype GalatamanPost<S> = GalatamanPost(fields: BloggerFields, sources: seq<S>)

  /**
   * build(): BloggerPost's readers, then parseMatchSources over the parsed
   * content with the builder's processor; the first exception escapes.
   */
  function PostOf<S>(fields: Result<BloggerFields>, parseHtml: String -> seq<Element>, p: PagePatterns,
                     validUrl: String -> bool, process: Processor<S>): (r: Result<GalatamanPost<S>>)
    ensures fields.Fail? ==> r == Fail(fields.error)
    ensures r.Ok? <==> fields.Ok? && UrlSources(parseHtml(fields.value.content), p, validUrl, process).Ok?
    ensures fields.Ok? && r.Fail? ==>
              r.error == UrlSources(parseHtml(fields.value.content), p, validUrl, process).error
              && r.error.PostParse? && r.error.wrapped.Some?
    ensures r.Ok? ==>
              r.value == GalatamanPost(fields.value, UrlSources(parseHtml(fields.value.content), p, validUrl, process).value)
  {
    var f :- fields;
    var sources :- UrlSources(parseHtml(f.content), p, validUrl, process);
    Ok(GalatamanPost(f, sources))
  }

  /** `new GalatamanPostBuilder(bloggerPost, sourceProcessor).build()`. */
  method BuildPost<S>(fields: Result<BloggerFields>, parseHtml: String -> seq<Element>, p: PagePatterns,
                      validUrl: String -> bool, process: Processor<S>) returns (r: Result<GalatamanPost<S>>)
    ensures r == PostOf(fields, parseHtml, p, validUrl, process)
  {
    var builder := new FeedPostBuilder<S>(fields);
    if builder.fields.Fail? {
      return Fail(builder.fields.error);
    }
    var doc := parseHtml(builder.fields.value.content);
    var thrown := builder.ParseMatchSources(doc, p, validUrl, process);
    if thrown.Some? {
      return Fail(thrown.value);
    }
    assert builder.sources == UrlSources(doc, p, validUrl, process).value;
    return Ok(GalatamanPost(builder.fields.value, builder.sources));
  }

  /**
   * A post whose content has a start element holds one source per header
   * from there on, each the processor's source for its header's HTML and
   * the URLs of the video links up to the next header.
   */
  lemma SourcesFollowHeaders<S>(fields: BloggerFields, parseHtml: String -> seq<Element>, p: PagePatterns,
                                validUrl: String -> bool, process: Processor<S>)
    requires StartIndex(parseHtml(fields.content), p.startOfSource, 0).Some?
    ensures var doc := parseHtml(fields.content);
            var r := PostOf(Ok(fields), parseHtml, p, validUrl, process);
            var hs := Headers(doc, StartIndex(doc, p.startOfSource, 0).value, |doc|, UrlRules(p));
            r.Ok? ==>
              && |r.value.sources| == |hs|
              && forall k :: 0 <= k < |hs| ==>
                   var links := Links(Segment(doc, hs[k], UrlRules(p)), UrlRules(p));
                   process(doc[hs[k]].html, Hrefs(links)) == Ok(r.value.sources[k])
  {
    UrlSourcesFollowHeaders(parseHtml(fields.content), p, validUrl, process);
  }

  /** A post whose content has no start element has no sources. */
  lemma NoStartNoSources<S>(fields: BloggerFields, parseHtml: String -> seq<Element>, p: PagePatterns,
                            validUrl: String -> bool, process: Processor<S>)
    requires StartIndex(parseHtml(fields.content), p.startOfSource, 0).None?
    ensures PostOf(Ok(fields), parseHtml, p, validUrl, process) == Ok(GalatamanPost(fields, []))
  {
  }
}
