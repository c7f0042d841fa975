/**
 * The file source of a Galataman blog post
 * (feed/blogger/galataman/GalatamanEventFileSource.java): its builder runs
 * the shared list-based builder with the delimiters of the blog's
 * GalatamanPattern class (not part of this model, so they are a parameter),
 * wraps a bad tuple and an unknown key in GalatamanPostParseException, and
 * reads RELEASE with its own parseResolution. The builder copies the
 * caller's list of URLs before parsing, so the built source keeps the URLs
 * the list held when the builder was made; the source is a value, which is
 * what the unmodifiable lists of the original guarantee.
 *
 * The post hands this builder its list of EventFiles where the builder is
 * declared over URLs; the builder never looks inside the list, so its
 * element type is a type parameter here.
 */
module GalatamanBloggerSource {
  import opened Outcome
  import opened JavaString
  import opened Regex
  import opened EventFileSource
  import opened GalatamanMetadata
  import opened JavaList

  // ---------------------------------------------------------------------
  // parseResolution
  // ---------------------------------------------------------------------

  /** `.*text.*` matches the whole value: the text occurs in it and no character is a line terminator, which `.` does not match. */
  predicate WholeMatch(text: String, s: String)
  {
    Contains(s, text) && !HasLineTerminator(s)
  }

  /** The text each pattern of parseResolution looks for ("720" stands for every 720 source); R_SD is the fallback. */
  function ReleaseText(r: Resolution): String
  {
    match r
    case R_4k => "4k"
    case R_1080p => "1080p"
    case R_1080i => "1080i"
    case R_720p => "720"
    case R_576p => "576p"
    case R_SD => "SD"
  }

  /**
   * parseResolution: the first of 4k, 1080p, 1080i, 720 and 576p whose
   * pattern matches the value, R_SD when none does.
   */
  function ParseRelease(s: String): (r: Resolution)
    ensures r != R_SD ==> WholeMatch(ReleaseText(r), s)
    ensures forall q :: q != R_SD && Ordinal(q) < Ordinal(r) ==> !WholeMatch(ReleaseText(q), s)
  {
    if WholeMatch("4k", s) then R_4k
    else if WholeMatch("1080p", s) then R_1080p
    else if WholeMatch("1080i", s) then R_1080i
    else if WholeMatch("720", s) then R_720p
    else if WholeMatch("576p", s) then R_576p
    else R_SD
  }

  /** A value with a line break is never classified. */
  lemma ReleaseWithLineBreak(s: String)
    requires HasLineTerminator(s)
    ensures ParseRelease(s) == R_SD
  {
    forall q | q != R_SD
      ensures !WholeMatch(ReleaseText(q), s)
    {
    }
  }

  /** A 720 source of any kind is taken for 720p, and the patterns are case-sensitive, so "4K" is not 4k. */
  lemma ReleaseExamples()
    ensures ParseRelease("720i") == R_720p
    ensures ParseRelease("4K") == R_SD
  {
    var a: String := "720i";
    assert OccursAt(a, "720", 0);
    ContainsIff(a, "720");
    NoOccurrence(a, "4k");
    ContainsIff(a, "1080p");
    ContainsIff(a, "1080i");
    var b: String := "4K";
    forall t | t in ["1080p", "1080i", "720", "576p"]
      ensures !Contains(b, t)
    {
      ContainsIff(b, t);
    }
    ContainsIff(b, "4k");
    forall k: nat | k + 2 <= |b|
      ensures !OccursAt(b, "4k", k)
    {
      assert b[k..k + 2][1] == b[k + 1];
    }
  }

  /** A text whose first character occurs nowhere in s does not occur in it. */
  lemma NoOccurrence(s: String, t: String)
    requires t != [] && t[0] !in s
    ensures !Contains(s, t)
  {
    ContainsIff(s, t);
    forall k: nat | k + |t| <= |s|
      ensures !OccursAt(s, t, k)
    {
      assert s[k..k + |t|][0] == s[k];
    }
  }

  // ---------------------------------------------------------------------
  // The builder and the source
  // ---------------------------------------------------------------------

  /**
   * The builder's configuration: GalatamanPostParseException wrapping the
   * InvalidMetadataException of a bad tuple, GalatamanPostParseException
   * for an unknown key, and RELEASE read by parseResolution.
   */
  function Config(d: Delimiters): (c: BuilderConfig<Resolution>)
    ensures c.tupleError == PostParse(Some(InvalidMetadata)) && c.unknownKeyError == PostParse(None)
    ensures c.readRelease == ParseRelease
  {
    BuilderConfig(d.item, d.kv, d.language, d.av, PostParse(Some(InvalidMetadata)), PostParse(None), ParseRelease)
  }

  datatype GalatamanEventFileSource<U> = GalatamanEventFileSource(
    channel: Option<String>,
    source: Option<String>,
    languages: seq<String>,
    videoData: seq<String>,
    audioData: seq<String>,
    duration: Option<String>,
    size: Option<String>,
    resolution: Option<Resolution>,
    urls: seq<U>)

  /** The source's constructor: every field of the builder, and the builder's URLs. */
  function SourceOf<U>(f: SourceFields<Resolution>, urls: seq<U>): GalatamanEventFileSource<U>
  {
    GalatamanEventFileSource(f.channel, f.source, f.languages, f.videoData, f.audioData, f.duration, f.size,
                             f.release, urls)
  }

  /**
   * `new GalatamanEventSourceBuilder(html, urls).build()`: the metadata
   * parsed and the URLs kept; a bad tuple or an unknown key throws.
   */
  function Build<U>(html: String, urls: seq<U>, d: Delimiters): (r: Result<GalatamanEventFileSource<U>>)
    ensures r.Fail? <==> ParseFields(html, Config(d)).Fail?
    ensures r.Fail? ==> r.error in {PostParse(Some(InvalidMetadata)), PostParse(None)}
    ensures r.Ok? ==> r.value.urls == urls
    ensures r.Ok? ==> forall x :: x in r.value.languages ==> Trim(x) != []
    ensures r.Ok? ==> forall x :: x in r.value.videoData + r.value.audioData ==> x != [] && Trim(x) == x
  {
    ParseFieldsError(html, Config(d));
    ParseFieldsTidy(html, Config(d));
    var f :- ParseFields(html, Config(d));
    Ok(SourceOf(f, urls))
  }

  /**
   * The resolution of a built source is parseResolution of the last RELEASE
   * item's value, and null without one.
   */
  lemma BuildResolution<U>(html: String, urls: seq<U>, d: Delimiters)
    ensures var kvs := DataItems(html, d.item, d.kv, PostParse(Some(InvalidMetadata)));
            var r := Build(html, urls, d);
            r.Ok? ==>
              && kvs.Ok?
              && r.value.resolution == if LastRelease(kvs.value).Some? then Some(ParseRelease(LastRelease(kvs.value).value)) else None
  {
    ParseFieldsRelease(html, Config(d));
  }

  /**
   * The languages of a built source are those of its LANGUAGE and
   * COMMENTARY items, in item order.
   */
  lemma BuildLanguages<U>(html: String, urls: seq<U>, d: Delimiters)
    ensures var kvs := DataItems(html, d.item, d.kv, PostParse(Some(InvalidMetadata)));
            var r := Build(html, urls, d);
            r.Ok? ==> kvs.Ok? && r.value.languages == LanguagesOf(kvs.value, Config(d))
  {
    var kvs := DataItems(html, d.item, d.kv, PostParse(Some(InvalidMetadata)));
    if kvs.Ok? {
      ApplyAllLanguages(NoFields(), kvs.value, Config(d));
    }
  }

  /**
   * The builder's constructor and build(): the caller's URLs copied into a
   * new list, then the builder run over the metadata.
   */
  method NewEventFileSource<U>(html: String, urls: ArrayList<U>, d: Delimiters)
    returns (r: Result<GalatamanEventFileSource<U>>)
    ensures r == Build(html, urls.elements, d)
  {
    var copy := new ArrayList.Copy(urls.elements);
    var b := NewSourceBuilder(html, Config(d));
    if b.Fail? {
      return Fail(b.error);
    }
    return Ok(SourceOf(b.value.Fields(), copy.elements));
  }
}
