/**
 * The match source of the Galataman feed (feed/galataman/GalatamanMatchSource.java):
 * its builder runs the shared list-based builder with the delimiters of the
 * feed's GalatamanPattern class (not part of this model, so they are a
 * parameter), wraps a bad tuple and an unknown key in
 * GalatamanPostParseException and stores the RELEASE value as it is, without
 * classifying it. The builder copies the caller's URL list, and the source is
 * a value, which is what its unmodifiable lists guarantee.
 */
module GalatamanFeedMatchSource {
  import opened Outcome
  import opened JavaString
  import opened Regex
  import opened GalatamanMetadata
  import opened JavaList

  /**
   * The builder's configuration: GalatamanPostParseException wrapping the
   * InvalidMetadataException of a bad tuple, GalatamanPostParseException for
   * an unknown key, and RELEASE kept as the cleaned text.
   */
  function Config(d: Delimiters): (c: BuilderConfig<String>)
    ensures c.tupleError == PostParse(Some(InvalidMetadata)) && c.unknownKeyError == PostParse(None)
    ensures forall v :: c.readRelease(v) == v
  {
    BuilderConfig(d.item, d.kv, d.language, d.av, PostParse(Some(InvalidMetadata)), PostParse(None), v => v)
  }

  datatype GalatamanMatchSource = GalatamanMatchSource(
    metadataStr: String,
    channel: Option<String>,
    source: Option<String>,
    languages: seq<String>,
    videoData: seq<String>,
    audioData: seq<String>,
    duration: Option<String>,
    size: Option<String>,
    release: Option<String>,
    urls: seq<String>)

  /** The source's constructor: the raw metadata, every field of the builder and the builder's URLs. */
  function SourceOf(html: String, f: SourceFields<String>, urls: seq<String>): GalatamanMatchSource
  {
    GalatamanMatchSource(html, f.channel, f.source, f.languages, f.videoData, f.audioData, f.duration, f.size,
                         f.release, urls)
  }

  /**
   * `new GalatamanMatchSourceBuilder(html, urls).build()`: the raw metadata
   * and the URLs kept, the metadata parsed; a bad tuple or an unknown key
   * throws.
   */
  function Build(html: String, urls: seq<String>, d: Delimiters): (r: Result<GalatamanMatchSource>)
    ensures r.Fail? <==> ParseFields(html, Config(d)).Fail?
    ensures r.Fail? ==> r.error in {PostParse(Some(InvalidMetadata)), PostParse(None)}
    ensures r.Ok? ==> r.value.metadataStr == html && r.value.urls == urls
    ensures r.Ok? ==> forall x :: x in r.value.languages ==> Trim(x) != []
    ensures r.Ok? ==> forall x :: x in r.value.videoData + r.value.audioData ==> x != [] && Trim(x) == x
  {
    ParseFieldsError(html, Config(d));
    ParseFieldsTidy(html, Config(d));
    var f :- ParseFields(html, Config(d));
    Ok(SourceOf(html, f, urls))
  }

  /** The release of a built source is the last RELEASE item's cleaned value as it stands, and null without one. */
  lemma BuildRelease(html: String, urls: seq<String>, d: Delimiters)
    ensures var kvs := DataItems(html, d.item, d.kv, PostParse(Some(InvalidMetadata)));
            var r := Build(html, urls, d);
            r.Ok? ==> kvs.Ok? && r.value.release == LastRelease(kvs.value)
  {
    ParseFieldsRelease(html, Config(d));
  }

  /** The languages of a built source are those of its LANGUAGE and COMMENTARY items, in item order. */
  lemma BuildLanguages(html: String, urls: seq<String>, d: Delimiters)
    ensures var kvs := DataItems(html, d.item, d.kv, PostParse(Some(InvalidMetadata)));
            var r := Build(html, urls, d);
            r.Ok? ==> kvs.Ok? && r.value.languages == LanguagesOf(kvs.value, Config(d))
  {
    var kvs := DataItems(html, d.item, d.kv, PostParse(Some(InvalidMetadata)));
    if kvs.Ok? {
      ApplyAllLanguages(NoFields(), kvs.value, Config(d));
    }
  }

  /**
   * The builder's constructor and build(): the caller's URLs copied into a
   * new list, then the builder run over the metadata without "&nbsp;".
   */
  method NewMatchSource(html: String, urls: ArrayList<String>, d: Delimiters) returns (r: Result<GalatamanMatchSource>)
    ensures r == Build(html, urls.elements, d)
  {
    var copy := new ArrayList.Copy(urls.elements);
    var b := NewSourceBuilder(html, Config(d));
    if b.Fail? {
      return Fail(b.error);
    }
    return Ok(SourceOf(html, b.value.Fields(), copy.elements));
  }
}
