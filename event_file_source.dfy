/**
 * A collection of files making up one recording of an event, with its media
 * metadata (model/EventFileSource.java), and the Resolution enumeration it
 * classifies video by.
 */
module EventFileSource {
  import opened Outcome
  import opened JavaString
  import EventFile

  /** Video resolution classes, best first (declaration order). */
  datatype Resolution = R_4k | R_1080p | R_1080i | R_720p | R_576p | R_SD

  /** Resolution.values(). */
  const Resolutions: seq<Resolution> := [R_4k, R_1080p, R_1080i, R_720p, R_576p, R_SD]

  function Ordinal(r: Resolution): nat
  {
    match r
    case R_4k => 0
    case R_1080p => 1
    case R_1080i => 2
    case R_720p => 3
    case R_576p => 4
    case R_SD => 5
  }

  /** The resolution's name (toString), which its pattern `.*name.*` looks for. */
  function Name(r: Resolution): String
  {
    match r
    case R_4k => "4K"
    case R_1080p => "1080p"
    case R_1080i => "1080i"
    case R_720p => "720p"
    case R_576p => "576p"
    case R_SD => "SD"
  }

  function Width(r: Resolution): int
  {
    match r
    case R_4k => 3840
    case R_1080p => 1920
    case R_1080i => 1920
    case R_720p => 1280
    case R_576p => 768
    case R_SD => 640
  }

  function Height(r: Resolution): int
  {
    match r
    case R_4k => 2160
    case R_1080p => 1080
    case R_1080i => 1080
    case R_720p => 720
    case R_576p => 576
    case R_SD => 480
  }

  predicate HasLineTerminator(s: String)
  {
    exists k :: 0 <= k < |s| && IsLineTerminator(s[k])
  }

  /**
   * `.*name.*` matches the whole text exactly when the name occurs in it and no
   * character of it is a line terminator, which `.` does not match.
   */
  predicate PatternMatches(r: Resolution, s: String)
  {
    Contains(s, Name(r)) && !HasLineTerminator(s)
  }

  /** The position in values() of the first resolution from index i on whose pattern matches s. */
  function FirstMatching(s: String, i: nat): (r: Option<nat>)
    requires i <= |Resolutions|
    decreases |Resolutions| - i
    ensures r.Some? ==> i <= r.value < |Resolutions| && PatternMatches(Resolutions[r.value], s)
    ensures r.Some? ==> forall k :: i <= k < r.value ==> !PatternMatches(Resolutions[k], s)
    ensures r.None? ==> forall k :: i <= k < |Resolutions| ==> !PatternMatches(Resolutions[k], s)
  {
    if i == |Resolutions| then None
    else if PatternMatches(Resolutions[i], s) then Some(i)
    else FirstMatching(s, i + 1)
  }

  /** Resolution.fromString: the first resolution whose pattern matches, or null. */
  function ResolutionFromString(s: String): (r: Option<Resolution>)
    ensures r.Some? ==> PatternMatches(r.value, s)
    ensures r.Some? ==> forall q :: PatternMatches(q, s) ==> Ordinal(r.value) <= Ordinal(q)
    ensures r.None? ==> forall q :: !PatternMatches(q, s)
  {
    OrdinalIsPosition();
    match FirstMatching(s, 0)
    case Some(k) => Some(Resolutions[k])
    case None => None
  }

  lemma OrdinalIsPosition()
    ensures forall k :: 0 <= k < |Resolutions| ==> Ordinal(Resolutions[k]) == k
    ensures forall q :: Resolutions[Ordinal(q)] == q
  {
  }

  /** Resolution.isResolution: any resolution's pattern matches. */
  predicate IsResolution(s: String)
  {
    exists q :: PatternMatches(q, s)
  }

  /** isResolution and fromString agree: a text is a resolution exactly when fromString finds one. */
  lemma IsResolutionIff(s: String)
    ensures IsResolution(s) <==> ResolutionFromString(s).Some?
  {
  }

  /** A line break anywhere in the text defeats every resolution pattern. */
  lemma LineBreakDefeatsResolution(s: String)
    requires HasLineTerminator(s)
    ensures ResolutionFromString(s).None?
  {
  }

  /** The 4K name wins over every other name; without it, a 1080p name wins over the rest. */
  lemma ResolutionPrecedence(s: String)
    requires !HasLineTerminator(s)
    ensures Contains(s, "4K") ==> ResolutionFromString(s) == Some(R_4k)
    ensures !Contains(s, "4K") && Contains(s, "1080p") ==> ResolutionFromString(s) == Some(R_1080p)
  {
  }

  // ---------------------------------------------------------------------
  // The source entity
  // ---------------------------------------------------------------------

  datatype EventFileSource = EventFileSource(
    eventFileSrcId: Option<String>,
    channel: Option<String>,
    source: Option<String>,
    approximateDuration: Option<String>,
    fileSize: Option<int>,
    languages: seq<String>,
    eventFiles: seq<EventFile.EventFile>,
    resolution: Option<Resolution>,
    mediaContainer: Option<String>,
    bitrate: Option<int>,
    videoCodec: Option<String>,
    frameRate: int,
    audioCodec: Option<String>,
    audioChannels: int)

  /** What the builder yields when nothing is set. */
  const EmptySource: EventFileSource :=
    EventFileSource(None, None, None, None, None, [], [], None, None, None, None, 0, None, 0)

  /**
   * The comparison shared by EventFileSource.compareTo and
   * VideoFileSource.compareTo, as written: -1 when either resolution is
   * missing, the 32-bit difference of the audio channel counts when the
   * resolutions agree, and the difference of the ordinals otherwise.
   */
  function CompareByResolution(a: Option<Resolution>, aChannels: int, b: Option<Resolution>, bChannels: int): (r: int)
    ensures a.None? || b.None? ==> r == -1
    ensures a.Some? && b.Some? && a != b ==> (r < 0 <==> Ordinal(a.value) < Ordinal(b.value)) && r != 0
    ensures a.Some? && a == b && INT_MIN <= aChannels - bChannels <= INT_MAX ==>
      (r < 0 <==> aChannels < bChannels) && (r == 0 <==> aChannels == bChannels)
  {
    if a.None? || b.None? then -1
    else if b == a then Wrap32(aChannels - bChannels)
    else Ordinal(a.value) - Ordinal(b.value)
  }

  /** EventFileSource.compareTo. */
  function CompareTo(x: EventFileSource, y: EventFileSource): (r: int)
    ensures x.resolution.None? || y.resolution.None? ==> r == -1
    ensures x.resolution.Some? && y.resolution.Some? && x.resolution != y.resolution ==>
      (r < 0 <==> Ordinal(x.resolution.value) < Ordinal(y.resolution.value))
  {
    CompareByResolution(x.resolution, x.audioChannels, y.resolution, y.audioChannels)
  }

  /** Sign of an int, the part of compareTo's result its contract speaks about. */
  function Sign(x: int): int
  {
    if x < 0 then -1 else if x > 0 then 1 else 0
  }

  /**
   * As written, compareTo is not antisymmetric: two sources without a
   * resolution each claim to be less than the other.
   */
  lemma CompareToNullNotAntisymmetric()
    ensures var x := EmptySource;
      CompareTo(x, x) == -1 && Sign(CompareTo(x, x)) != -Sign(CompareTo(x, x))
  {
  }

  /**
   * As written, the channel difference wraps around: between 2147483647 and
   * -1 channels both directions compare negative.
   */
  lemma CompareToOverflowNotAntisymmetric()
    ensures var x := EmptySource.(resolution := Some(R_SD), audioChannels := INT_MAX);
      var y := EmptySource.(resolution := Some(R_SD), audioChannels := -1);
      CompareTo(x, y) < 0 && CompareTo(y, x) < 0
  {
  }

  /** A missing resolution ranks before every resolution. */
  function Rank(r: Option<Resolution>): int
  {
    if r.None? then -1 else Ordinal(r.value)
  }

  /**
   * The comparison the comment in the source intends: a missing resolution
   * sorts first, then resolution order decides, then the audio channel counts
   * compared without overflow (Integer.compare).
   */
  function CompareByResolutionCorrected(a: Option<Resolution>, aChannels: int, b: Option<Resolution>, bChannels: int): (r: int)
    ensures Rank(a) < Rank(b) ==> r < 0
    ensures Rank(a) == Rank(b) ==> Sign(r) == Sign(aChannels - bChannels)
  {
    if Rank(a) != Rank(b) then Rank(a) - Rank(b)
    else if aChannels < bChannels then -1
    else if aChannels > bChannels then 1
    else 0
  }

  /** The corrected comparison is antisymmetric and transitive, so it is a valid Comparable order. */
  lemma CorrectedIsOrder(a: Option<Resolution>, ac: int, b: Option<Resolution>, bc: int, c: Option<Resolution>, cc: int)
    ensures Sign(CompareByResolutionCorrected(a, ac, b, bc)) == -Sign(CompareByResolutionCorrected(b, bc, a, ac))
    ensures CompareByResolutionCorrected(a, ac, b, bc) < 0 && CompareByResolutionCorrected(b, bc, c, cc) < 0 ==>
      CompareByResolutionCorrected(a, ac, c, cc) < 0
    ensures CompareByResolutionCorrected(a, ac, b, bc) == 0 ==>
      Sign(CompareByResolutionCorrected(a, ac, c, cc)) == Sign(CompareByResolutionCorrected(b, bc, c, cc))
  {
  }
}
