/**
 * What the ZKFootball metadata parsers share (plugin/datasource/zkfootball's
 * ZKFMetadataParser and ZKFFileSourceMetadataParser, and the parser nested in
 * feed/blogger/zkfootball/ZKFEventFileSourceParser): the metadata tags, the
 * cleaning of a value, the bitrate and the reading of a format text into a
 * resolution, a frame rate and a media container.
 *
 * A metadata item is a page element whose text is its tag; the parsers read
 * the text of the node after it and the bold text of the element after it.
 * The patterns of the plugin parsers live in a ZKFPatterns holder that is not
 * part of this model, so they are parameters here.
 */
module ZKFMetadata {
  import opened Outcome
  import opened JavaString
  import opened Regex
  import opened EventFileSource

  const ChannelTag: String := "channel:"
  const LanguageTag: String := "language:"
  const FormatTag: String := "format:"
  const BitrateTag: String := "bitrate:"
  const SizeTag: String := "size:"

  /** The entity cleanMetadata removes. */
  const NonBreakingSpace: String := "&nbsp;"

  /** The resolution text the 4K branch looks for. */
  const UltraHd: String := "4096x2160"

  /**
   * A metadata element: its text, the text of the node after it
   * (`nextSibling().toString()`, None when there is none) and the bold text
   * of the element after it (`nextElementSibling().select("b").text()`, None
   * when there is no such element).
   */
  datatype MetaElement = MetaElement(text: String, sibling: Option<String>, nextBoldText: Option<String>)

  /** The patterns a parser reads format and bitrate texts with. */
  datatype ZKFPatterns = ZKFPatterns(
    isResolution: String -> bool,       // the resolution pattern is found
    frameRate: String -> Option<String>, // group 1 of the frame-rate pattern's first find
    isContainer: String -> bool,        // the container pattern is found
    isMbps: String -> bool,             // the megabit pattern is found
    isKbps: String -> bool,             // the kilobit pattern is found
    defaultBitrate: int)

  /** cleanMetadata: every "&nbsp;" removed, then the ends trimmed. */
  function CleanMetadata(s: String): (r: String)
    ensures |r| > 0 ==> r[0] > ' ' && r[|r| - 1] > ' '
    ensures |r| <= |s|
  {
    RemoveShortens(s, NonBreakingSpace);
    Trim(Replace(s, NonBreakingSpace, []))
  }

  /** A value with no "&nbsp;" and no blank at either end is already clean. */
  lemma CleanKeepsClean(s: String)
    requires !Contains(s, NonBreakingSpace)
    requires |s| > 0 ==> s[0] > ' ' && s[|s| - 1] > ' '
    ensures CleanMetadata(s) == s
  {
    ReplaceAbsent(s, NonBreakingSpace, []);
    if |s| > 0 {
      assert LeadingBlanks(s) == 0;
      assert TrailingBlanks(s) == 0;
      assert s[0..|s|] == s;
    }
  }

  /**
   * A language as parseLanguages adds it: the cleaned text with its first
   * letter upper-cased; an empty text makes `substring(0, 1)` throw.
   */
  function LanguageOf(text: String): (r: Result<String>)
    ensures r.Fail? <==> CleanMetadata(text) == []
    ensures r.Fail? ==> r.error == IndexOutOfBounds
    ensures r.Ok? ==> |r.value| == |CleanMetadata(text)| && r.value[0] == UpperChar(CleanMetadata(text)[0])
                      && r.value[1..] == CleanMetadata(text)[1..]
  {
    Capitalize(CleanMetadata(text))
  }

  // ---------------------------------------------------------------------
  // parseBitrate
  // ---------------------------------------------------------------------

  /**
   * The bitrate the first digit run of the text gives: that number in
   * megabits when the megabit pattern is found, in kilobits when the kilobit
   * pattern is, and otherwise the earlier value; a run too long for an int is
   * a NumberFormatException, caught, leaving the earlier value too.
   */
  function ScaledBitrate(previous: int, data: String, p: ZKFPatterns): int
  {
    match FirstDigitRun(data)
    case None => previous
    case Some(digits) =>
      match ParseInt(digits)
      case None => previous
      case Some(n) =>
        if p.isMbps(data) then n * 1_000_000
        else if p.isKbps(data) then n * 1_000
        else previous
  }

  /** parseBitrate: the scaled bitrate, with the finally block's default in place of a zero. */
  function BitrateOf(previous: int, data: String, p: ZKFPatterns): (r: int)
    ensures r == 0 ==> p.defaultBitrate == 0
  {
    var b := ScaledBitrate(previous, data, p);
    if b == 0 then p.defaultBitrate else b
  }

  /**
   * The cases of parseBitrate: a digit run that fits an int, n, gives
   * n * 1,000,000 under the megabit pattern and otherwise n * 1,000 under the
   * kilobit pattern; without a digit run, an int-sized one or a unit the
   * earlier value stays; and a zero becomes the default.
   */
  lemma BitrateCases(previous: int, data: String, p: ZKFPatterns)
    ensures var d := FirstDigitRun(data);
            var b := BitrateOf(previous, data, p);
            var fallback := if previous == 0 then p.defaultBitrate else previous;
            && (d.None? ==> b == fallback)
            && (d.Some? && ParseInt(d.value).None? ==> b == fallback)
            && (d.Some? && ParseInt(d.value).Some? ==>
                  var n := ParseInt(d.value).value;
                  && (p.isMbps(data) ==> b == (if n == 0 then p.defaultBitrate else n * 1_000_000))
                  && (!p.isMbps(data) && p.isKbps(data) ==> b == (if n == 0 then p.defaultBitrate else n * 1_000))
                  && (!p.isMbps(data) && !p.isKbps(data) ==> b == fallback))
  {
  }

  /**
   * The bitrate is a non-negative long: the digit run is at most
   * 2,147,483,647, so even in megabits the product stays well inside the long
   * range.
   */
  lemma BitrateInLong(previous: int, data: String, p: ZKFPatterns)
    requires 0 <= previous <= LONG_MAX && 0 <= p.defaultBitrate <= LONG_MAX
    ensures 0 <= BitrateOf(previous, data, p) <= LONG_MAX
  {
    var d := FirstDigitRun(data);
    if d.Some? && ParseInt(d.value).Some? {
      var n := ParseInt(d.value).value;
      assert 0 <= n by {
        assert AllDigits(d.value) && |d.value| > 0;
      }
      assert n * 1_000_000 <= INT_MAX * 1_000_000;
    }
  }

  // ---------------------------------------------------------------------
  // parseFormat
  // ---------------------------------------------------------------------

  /** The fields parseFormat sets. */
  datatype FormatFields = FormatFields(resolution: Option<Resolution>, frameRate: int, mediaContainer: Option<String>)

  /**
   * One part of the format text: the 4K text sets R_4k; otherwise a part
   * where the resolution pattern is found sets Resolution.fromString of it
   * (null when no resolution name matches); otherwise a frame rate sets its
   * number, a group too long for an int throwing NumberFormatException;
   * otherwise a container sets the part upper-cased; any other part changes
   * nothing.
   */
  function FormatPart(f: FormatFields, part: String, p: ZKFPatterns): (r: Result<FormatFields>)
    ensures Contains(part, UltraHd) ==> r == Ok(f.(resolution := Some(R_4k)))
    ensures !Contains(part, UltraHd) && p.isResolution(part) ==> r == Ok(f.(resolution := ResolutionFromString(part)))
    ensures r.Fail? <==> !Contains(part, UltraHd) && !p.isResolution(part) && p.frameRate(part).Some?
                         && ParseInt(p.frameRate(part).value).None?
    ensures r.Fail? ==> r.error == NumberFormat
    ensures r.Ok? && r.value.mediaContainer != f.mediaContainer ==> r.value.mediaContainer == Some(Upper(part))
  {
    if Contains(part, UltraHd) then Ok(f.(resolution := Some(R_4k)))
    else if p.isResolution(part) then Ok(f.(resolution := ResolutionFromString(part)))
    else
      match p.frameRate(part)
      case Some(group) =>
        (match ParseInt(group)
         case None => Fail(NumberFormat)
         case Some(n) => Ok(f.(frameRate := n)))
      case None =>
        if p.isContainer(part) then Ok(f.(mediaContainer := Some(Upper(part)))) else Ok(f)
  }

  /**
   * The loop over the parts inside parseFormat's try: each part in turn, the
   * first exception ending the loop and being caught, so the fields set
   * before it stay.
   */
  function FormatParts(f: FormatFields, parts: seq<String>, p: ZKFPatterns): FormatFields
    decreases |parts|
  {
    if parts == [] then f
    else
      match FormatPart(f, parts[0], p)
      case Fail(_) => f
      case Ok(g) => FormatParts(g, parts[1..], p)
  }

  /** parseFormat: the text split on single spaces, then the parts read in order. */
  function Format(f: FormatFields, data: String, p: ZKFPatterns): FormatFields
  {
    FormatParts(f, Split(Literal(" "), data), p)
  }

  /**
   * parseFormat's loop: the parts read in turn into the fields, the first
   * exception leaving the loop for the catch block.
   */
  method ReadFormat(f: FormatFields, data: String, p: ZKFPatterns) returns (g: FormatFields)
    ensures g == Format(f, data, p)
  {
    var parts := Split(Literal(" "), data);
    g := f;
    var i := 0;
    while i < |parts|
      invariant 0 <= i <= |parts|
      invariant FormatParts(f, parts, p) == FormatParts(g, parts[i..], p)
    {
      var next := FormatPart(g, parts[i], p);
      if next.Fail? {
        return;
      }
      assert parts[i..][1..] == parts[i + 1..];
      g := next.value;
      i := i + 1;
    }
  }

  /** The fields after the parts before k, each of which was read without an exception. */
  function FormatPrefix(f: FormatFields, parts: seq<String>, k: nat, p: ZKFPatterns): (r: Result<FormatFields>)
    requires k <= |parts|
  {
    if k == 0 then Ok(f)
    else
      var g :- FormatPrefix(f, parts, k - 1, p);
      FormatPart(g, parts[k - 1], p)
  }

  /**
   * The format loop swallows its exception: the result is the fields after
   * every part when none throws, and otherwise the fields after the parts
   * before the first one that does.
   */
  lemma {:induction false} FormatPartsStop(f: FormatFields, parts: seq<String>, p: ZKFPatterns)
    ensures FormatPrefix(f, parts, |parts|, p).Ok? ==> FormatParts(f, parts, p) == FormatPrefix(f, parts, |parts|, p).value
    ensures forall k :: 0 <= k < |parts| && FormatPrefix(f, parts, k, p).Ok? && FormatPrefix(f, parts, k + 1, p).Fail? ==>
              FormatParts(f, parts, p) == FormatPrefix(f, parts, k, p).value
    decreases |parts|
  {
    if parts != [] {
      match FormatPart(f, parts[0], p)
      case Fail(_) =>
        FormatPrefixFirstFails(f, parts, p);
      case Ok(g) =>
        FormatPartsStop(g, parts[1..], p);
        FormatPrefixShift(f, parts, p);
    }
  }

  /** When the first part throws, every longer prefix throws as well. */
  lemma FormatPrefixFirstFails(f: FormatFields, parts: seq<String>, p: ZKFPatterns)
    requires parts != [] && FormatPart(f, parts[0], p).Fail?
    ensures forall k :: 1 <= k <= |parts| ==> FormatPrefix(f, parts, k, p).Fail?
  {
    forall k | 1 <= k <= |parts| ensures FormatPrefix(f, parts, k, p).Fail? {
      FormatPrefixFailsOn(f, parts, k, p);
    }
  }

  lemma {:induction false} FormatPrefixFailsOn(f: FormatFields, parts: seq<String>, k: nat, p: ZKFPatterns)
    requires parts != [] && FormatPart(f, parts[0], p).Fail?
    requires 1 <= k <= |parts|
    ensures FormatPrefix(f, parts, k, p).Fail?
  {
    if k > 1 {
      FormatPrefixFailsOn(f, parts, k - 1, p);
    }
  }

  /** A prefix that starts with a part read without an exception goes on from that part's fields. */
  lemma FormatPrefixShift(f: FormatFields, parts: seq<String>, p: ZKFPatterns)
    requires parts != [] && FormatPart(f, parts[0], p).Ok?
    ensures forall k :: 1 <= k <= |parts| ==>
              FormatPrefix(f, parts, k, p) == FormatPrefix(FormatPart(f, parts[0], p).value, parts[1..], k - 1, p)
  {
    forall k | 1 <= k <= |parts|
      ensures FormatPrefix(f, parts, k, p) == FormatPrefix(FormatPart(f, parts[0], p).value, parts[1..], k - 1, p)
    {
      FormatPrefixShiftAt(f, parts, k, p);
    }
  }

  lemma {:induction false} FormatPrefixShiftAt(f: FormatFields, parts: seq<String>, k: nat, p: ZKFPatterns)
    requires parts != [] && FormatPart(f, parts[0], p).Ok?
    requires 1 <= k <= |parts|
    ensures FormatPrefix(f, parts, k, p) == FormatPrefix(FormatPart(f, parts[0], p).value, parts[1..], k - 1, p)
  {
    if k > 1 {
      FormatPrefixShiftAt(f, parts, k - 1, p);
      assert parts[1..][k - 2] == parts[k - 1];
    }
  }

  /** A format text whose only part holds the 4K text sets R_4k and nothing else. */
  lemma UltraHdFormat(f: FormatFields, data: String, p: ZKFPatterns)
    requires !Contains(data, " ") && Contains(data, UltraHd)
    ensures Format(f, data, p) == f.(resolution := Some(R_4k))
  {
    FindLiteral(" ", data, 0);
    assert Split(Literal(" "), data) == [data];
    var g := f.(resolution := Some(R_4k));
    assert FormatPart(f, data, p) == Ok(g);
    assert [data][1..] == [];
    assert FormatParts(g, [], p) == g;
    assert FormatParts(f, [data], p) == FormatParts(g, [data][1..], p);
  }
}
