/**
 * The match source of the older Galataman feed
 * (feed/Galataman/GalatamanMatchSource.java). Its builder parses like the
 * newer one (delimiters of a GalatamanPattern class that is not part of this
 * model, GalatamanPostParseException for a bad tuple or an unknown key,
 * RELEASE kept as text), but it keeps the caller's URL list itself rather
 * than a copy, so the source's unmodifiable view shows whatever the caller
 * adds to that list later. The source is therefore a class holding a
 * reference to the caller's list.
 */
module GalatamanLegacyMatchSource {
  import opened Outcome
  import opened JavaString
  import opened Regex
  import opened GalatamanMetadata
  import opened JavaList
  import Feed = GalatamanFeedMatchSource

  /** A built source: the builder's fields, and the caller's URL list by reference. */
  class GalatamanMatchSource {
    const metadataStr: String
    const fields: SourceFields<String>
    const urls: ArrayList<String>

    /** getURLs(): a view of the list the caller handed to the builder. */
    function URLs(): seq<String>
      reads urls
    {
      urls.elements
    }

    constructor(metadataStr: String, fields: SourceFields<String>, urls: ArrayList<String>)
      ensures this.metadataStr == metadataStr && this.fields == fields && this.urls == urls
    {
      this.metadataStr := metadataStr;
      this.fields := fields;
      this.urls := urls;
    }
  }

  /**
   * `new GalatamanMatchSourceBuilder(html, urls).build()`: the raw metadata
   * kept, the metadata parsed, and the caller's list itself kept; a bad
   * tuple or an unknown key throws.
   */
  method NewMatchSource(html: String, urls: ArrayList<String>, d: Delimiters) returns (r: Result<GalatamanMatchSource>)
    ensures r.Fail? <==> ParseFields(html, Feed.Config(d)).Fail?
    ensures r.Fail? ==> r.error in {PostParse(Some(InvalidMetadata)), PostParse(None)}
    ensures r.Ok? ==> fresh(r.value) && r.value.metadataStr == html && r.value.urls == urls
    ensures r.Ok? ==> r.value.fields == ParseFields(html, Feed.Config(d)).value && Tidy(r.value.fields)
  {
    ParseFieldsError(html, Feed.Config(d));
    ParseFieldsTidy(html, Feed.Config(d));
    var b := NewSourceBuilder(html, Feed.Config(d));
    if b.Fail? {
      return Fail(b.error);
    }
    var src := new GalatamanMatchSource(html, b.value.Fields(), urls);
    return Ok(src);
  }

  /**
   * The caller adding a URL to the list it gave the builder: the built
   * source's URLs grow with it, and nothing else about the source changes.
   */
  method AddAfterBuild(src: GalatamanMatchSource, url: String)
    modifies src.urls
    ensures src.URLs() == old(src.URLs()) + [url]
  {
    src.urls.Add(url);
  }
}
