/**
 * The later form of a file source (model/video/VideoFileSource.java): its
 * identity (equals and hashCode over channel, languages and resolution) and
 * its ordering. Its Resolution enumeration has the same constants, names,
 * patterns and lookups as the one in EventFileSource, which is reused here.
 */
module VideoFileSource {
  import opened Outcome
  import opened JavaString
  import opened EventFileSource

  datatype VideoFileSource = VideoFileSource(
    fileSrcId: Option<String>,
    channel: Option<String>,
    source: Option<String>,
    approximateDuration: Option<String>,
    languages: Option<String>,
    resolution: Option<Resolution>,
    mediaContainer: Option<String>,
    videoCodec: Option<String>,
    audioCodec: Option<String>,
    bitrate: Option<int>,
    fileSize: Option<int>,
    frameRate: int,
    audioChannels: int)

  /**
   * VideoFileSource.equals: the receiver's channel, languages and resolution
   * must all be present and each equal to the other source's.
   */
  predicate Equals(a: VideoFileSource, b: VideoFileSource)
  {
    a.channel.Some? && a.channel == b.channel
    && a.languages.Some? && a.languages == b.languages
    && a.resolution.Some? && a.resolution == b.resolution
  }

  /** A source missing any of the three identifying fields is not equal even to itself. */
  lemma EqualsNotReflexiveWhenIncomplete(a: VideoFileSource)
    ensures Equals(a, a) <==> a.channel.Some? && a.languages.Some? && a.resolution.Some?
  {
  }

  /** Between complete sources, equality is symmetric and transitive. */
  lemma EqualsIsEquivalence(a: VideoFileSource, b: VideoFileSource, c: VideoFileSource)
    ensures Equals(a, b) ==> Equals(b, a)
    ensures Equals(a, b) && Equals(b, c) ==> Equals(a, c)
  {
  }

  /** String.hashCode over UTF-16 code units, which coincide with chars in the Basic Multilingual Plane. */
  function StringHash(s: String): (h: int)
    ensures INT_MIN <= h <= INT_MAX
  {
    if |s| == 0 then 0 else Wrap32(31 * StringHash(s[..|s| - 1]) + s[|s| - 1] as int)
  }

  /** One step of `hash = 31 * hash + part`. */
  function HashStep(hash: int, part: int): (h: int)
    ensures INT_MIN <= h <= INT_MAX
  {
    Wrap32(31 * hash + part)
  }

  /**
   * VideoFileSource.hashCode: 7, folded with the channel's, the languages' and
   * the resolution's hashes, 0 standing for a missing field. An enum constant's
   * hash is its identity hash, given here by resolutionHash.
   */
  function HashCode(v: VideoFileSource, resolutionHash: Resolution -> int): (h: int)
    ensures INT_MIN <= h <= INT_MAX
  {
    var h1 := HashStep(7, if v.channel.Some? then StringHash(v.channel.value) else 0);
    var h2 := HashStep(h1, if v.languages.Some? then StringHash(v.languages.value) else 0);
    HashStep(h2, if v.resolution.Some? then resolutionHash(v.resolution.value) else 0)
  }

  /** hashCode reads only channel, languages and resolution. */
  lemma HashCodeReadsThreeFields(a: VideoFileSource, b: VideoFileSource, resolutionHash: Resolution -> int)
    requires a.channel == b.channel && a.languages == b.languages && a.resolution == b.resolution
    ensures HashCode(a, resolutionHash) == HashCode(b, resolutionHash)
  {
  }

  /** Equal sources hash alike. */
  lemma HashCodeConsistentWithEquals(a: VideoFileSource, b: VideoFileSource, resolutionHash: Resolution -> int)
    ensures Equals(a, b) ==> HashCode(a, resolutionHash) == HashCode(b, resolutionHash)
  {
    if Equals(a, b) {
      HashCodeReadsThreeFields(a, b, resolutionHash);
    }
  }

  /** VideoFileSource.compareTo: the same rule as EventFileSource.compareTo. */
  function CompareTo(x: VideoFileSource, y: VideoFileSource): (r: int)
    ensures x.resolution.None? || y.resolution.None? ==> r == -1
    ensures x.resolution.Some? && y.resolution.Some? && x.resolution != y.resolution ==>
      (r < 0 <==> Ordinal(x.resolution.value) < Ordinal(y.resolution.value))
    ensures (x.resolution.Some? && x.resolution == y.resolution &&
             INT_MIN <= x.audioChannels - y.audioChannels <= INT_MAX) ==>
      Sign(r) == Sign(x.audioChannels - y.audioChannels)
  {
    CompareByResolution(x.resolution, x.audioChannels, y.resolution, y.audioChannels)
  }

  const Blank: VideoFileSource :=
    VideoFileSource(None, None, None, None, None, None, None, None, None, None, None, 0, 0)

  /** As written, two sources without a resolution each compare below the other. */
  lemma CompareToNullNotAntisymmetric()
    ensures var x := Blank; var y := Blank.(channel := Some("x"));
      CompareTo(x, y) == -1 && CompareTo(y, x) == -1
  {
  }
}
