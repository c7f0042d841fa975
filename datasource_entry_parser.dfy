/**
 * The pattern-kit driven entry parser (plugin/datasource/EntryParser.java).
 *
 * A pattern kit names, for each field of an event or a file source, the
 * capture group of a metadata regex that holds it. The parser reads the groups
 * of a match into teams, competition, season, fixture and date, turns each
 * file-source match into a file source, gathers the linked video files into
 * packs by the part caption written before each link, and hands each pack to the
 * file source at the same position.
 *
 * The regex engine and the HTML document are inputs: a match is given by its
 * groups, a link by the part-caption matches of its preceding siblings (nearest
 * first) and its address.
 */
module DatasourceEntryParser {
  import opened Outcome
  import opened JavaString
  import opened Regex
  import opened Domain
  import opened EventFileSource
  import opened EventFile

  // ---------------------------------------------------------------------
  // Capture groups (getNew)
  // ---------------------------------------------------------------------

  /**
   * The groups of one successful match: the whole match, then groups 1 to
   * groupCount(); None where a group took no part in the match.
   */
  datatype MatchGroups = MatchGroups(whole: String, captured: seq<Option<String>>)

  /**
   * getNew(String.class, matcher, group): group 0 and groups beyond
   * groupCount() give null, as do a group that did not participate and an
   * empty group; a negative group number makes Matcher.group throw.
   */
  function Capture(m: MatchGroups, group: int): (r: Result<Option<String>>)
    ensures r.Fail? <==> group < 0
    ensures r.Fail? ==> r.error == IndexOutOfBounds
    ensures group == 0 || group > |m.captured| ==> r == Ok(None)
    ensures r.Ok? && r.value.Some? ==>
      1 <= group <= |m.captured| && m.captured[group - 1] == r.value && r.value.value != []
    ensures 1 <= group <= |m.captured| && m.captured[group - 1].Some? && m.captured[group - 1].value != [] ==>
      r == Ok(m.captured[group - 1])
  {
    if group == 0 || |m.captured| < group then Ok(None)
    else if group < 0 then Fail(IndexOutOfBounds)
    else match m.captured[group - 1]
      case None => Ok(None)
      case Some(name) => if name == [] then Ok(None) else Ok(Some(name))
  }

  /**
   * getNew(Integer.class, matcher, group): the group passed to the Integer(String)
   * constructor; its NumberFormatException reaches the caller wrapped in a
   * RuntimeException.
   */
  function CaptureInteger(m: MatchGroups, group: int): (r: Result<Option<int>>)
    ensures Capture(m, group).Fail? ==> r == Fail(IndexOutOfBounds)
    ensures Capture(m, group) == Ok(None) ==> r == Ok(None)
    ensures Capture(m, group).Ok? && Capture(m, group).value.Some? ==>
      (r.Ok? <==> ParseInt(Capture(m, group).value.value).Some?)
    ensures r.Ok? && r.value.Some? ==> r.value == ParseInt(Capture(m, group).value.value)
    ensures r.Fail? && group >= 0 ==> r.error == Wrapped(NumberFormat)
  {
    var text :- Capture(m, group);
    if text.None? then Ok(None)
    else match ParseInt(text.value)
      case None => Fail(Wrapped(NumberFormat))
      case Some(n) => Ok(Some(n))
  }

  /** A group holding the printed form of an int reads back as that int. */
  lemma CaptureIntegerPrinted(m: MatchGroups, group: int, n: int)
    requires 1 <= group <= |m.captured| && m.captured[group - 1] == Some(IntToString(n))
    requires INT_MIN <= n <= INT_MAX
    ensures CaptureInteger(m, group) == Ok(Some(n))
  {
    ParsePrinted(n, INT_MIN, INT_MAX);
    assert IntToString(n) != [] by {
      if n < 0 { } else { }
    }
  }

  // ---------------------------------------------------------------------
  // Event metadata
  // ---------------------------------------------------------------------

  /** The group numbers of an event metadata pattern kit. */
  datatype EventKit = EventKit(
    homeTeamName: int,
    awayTeamName: int,
    competitionName: int,
    season: int,
    fixture: int,
    date: int)

  /** The fields the Event builder is given; an absent team or competition is null. */
  datatype ParsedEvent = ParsedEvent(
    homeTeam: Option<Team>,
    awayTeam: Option<Team>,
    competition: Option<Competition>,
    season: Season,
    fixture: Fixture,
    date: DateTime)

  function TeamOf(name: Option<String>): Option<Team>
  {
    if name.None? then None else Some(Team(name.value))
  }

  function CompetitionOf(name: Option<String>): Option<Competition>
  {
    if name.None? then None else Some(Competition(name.value))
  }

  /**
   * parseDate: a captured date is read as dd/MM/yyyy by the given parser (a
   * text it rejects is a DateTimeParseException), and no date means today.
   */
  function ParseDate(m: MatchGroups, kit: EventKit, parseDate: DateParser, today: DateTime): (r: Result<DateTime>)
    ensures Capture(m, kit.date) == Ok(None) ==> r == Ok(today)
    ensures Capture(m, kit.date).Fail? ==> r == Fail(IndexOutOfBounds)
    ensures Capture(m, kit.date).Ok? && Capture(m, kit.date).value.Some? ==>
      (r.Ok? <==> parseDate(Capture(m, kit.date).value.value).Some?)
      && (r.Ok? ==> Some(r.value) == parseDate(Capture(m, kit.date).value.value))
      && (r.Fail? ==> r.error == DateTimeParse)
  {
    var raw :- Capture(m, kit.date);
    if raw.None? then Ok(today)
    else match parseDate(raw.value)
      case None => Fail(DateTimeParse)
      case Some(d) => Ok(d)
  }

  /** parseFixture: the captured fixture text as the fixture's title, or an empty fixture. */
  function ParseFixture(m: MatchGroups, kit: EventKit): (r: Result<Fixture>)
    ensures Capture(m, kit.fixture).Ok? <==> r.Ok?
    ensures r.Ok? ==> r.value.number.None? && r.value.title == Capture(m, kit.fixture).value
  {
    var num :- Capture(m, kit.fixture);
    if num.None? then Ok(EmptyFixture) else Ok(TitledFixture(num.value))
  }

  /**
   * The year rule of parseSeason: years below 50 are 20xx, years from 50 to
   * 99 are 19xx, and larger years are kept.
   */
  function CenturyYear(year: int): (y: int)
    ensures 0 <= year < 100 ==> 1950 <= y < 2050 && y % 100 == year
    ensures year >= 100 ==> y == year
    ensures year < 0 ==> y == year + 2000
  {
    if year < 100 then (if year < 50 then year + 2000 else year + 1900) else year
  }

  /** Integer.parseInt over each piece; the first piece that is not a number throws. */
  function ParseInts(pieces: seq<String>): (r: Result<seq<int>>)
    ensures r.Ok? <==> forall i :: 0 <= i < |pieces| ==> ParseInt(pieces[i]).Some?
    ensures r.Ok? ==> |r.value| == |pieces|
    ensures r.Ok? ==> forall i :: 0 <= i < |pieces| ==> Some(r.value[i]) == ParseInt(pieces[i])
    ensures r.Fail? ==> r.error == NumberFormat
  {
    if |pieces| == 0 then Ok([])
    else if ParseInt(pieces[0]).None? then Fail(NumberFormat)
    else
      var rest :- ParseInts(pieces[1..]);
      Ok([ParseInt(pieces[0]).value] + rest)
  }

  /**
   * parseSeason: the captured text is split at '/', each piece parsed and
   * widened by the year rule; two years are the season's bounds, one year
   * starts a season ending the next year (int addition), anything else is the
   * default season.
   */
  function ParseSeason(m: MatchGroups, kit: EventKit): (r: Result<Season>)
    ensures Capture(m, kit.season).Fail? ==> r == Fail(IndexOutOfBounds)
    ensures Capture(m, kit.season) == Ok(None) ==> r == Ok(DefaultSeason)
    ensures Capture(m, kit.season).Ok? && Capture(m, kit.season).value.Some? ==>
      var pieces := Split(Literal("/"), Capture(m, kit.season).value.value);
      && (r.Ok? <==> forall i :: 0 <= i < |pieces| ==> ParseInt(pieces[i]).Some?)
      && (r.Fail? ==> r.error == NumberFormat)
      && (r.Ok? && |pieces| == 2 ==>
            r.value == Season(CenturyYear(ParseInt(pieces[0]).value), CenturyYear(ParseInt(pieces[1]).value)))
      && (r.Ok? && |pieces| == 1 ==>
            r.value == Season(CenturyYear(ParseInt(pieces[0]).value), Wrap32(CenturyYear(ParseInt(pieces[0]).value) + 1)))
      && (r.Ok? && |pieces| != 1 && |pieces| != 2 ==> r.value == DefaultSeason)
  {
    var data :- Capture(m, kit.season);
    if data.None? then Ok(DefaultSeason)
    else
      var parsed :- ParseInts(Split(Literal("/"), data.value));
      var years := seq(|parsed|, i requires 0 <= i < |parsed| => CenturyYear(parsed[i]));
      if |years| == 2 then Ok(Season(years[0], years[1]))
      else if |years| == 1 then Ok(Season(years[0], Wrap32(years[0] + 1)))
      else Ok(DefaultSeason)
  }

  /** Pieces that are all numbers parse to exactly those numbers. */
  lemma ParseIntsOf(pieces: seq<String>, values: seq<int>)
    requires |pieces| == |values|
    requires forall i :: 0 <= i < |pieces| ==> ParseInt(pieces[i]) == Some(values[i])
    ensures ParseInts(pieces) == Ok(values)
  {
    var r := ParseInts(pieces);
    assert r.Ok?;
    assert r.value == values;
  }

  lemma ParseIntsTwoDigitYears()
    ensures ParseInts(["19", "20"]) == Ok([19, 20])
  {
    ParsePrinted(19, INT_MIN, INT_MAX);
    assert IntToString(19) == "19";
    ParsePrinted(20, INT_MIN, INT_MAX);
    assert IntToString(20) == "20";
    ParseIntsOf(["19", "20"], [19, 20]);
  }

  lemma ParseIntsFullYear()
    ensures ParseInts(["2019"]) == Ok([2019])
  {
    ParsePrinted(2019, INT_MIN, INT_MAX);
    assert IntToString(2019) == "2019";
    ParseIntsOf(["2019"], [2019]);
  }

  /** A two-digit season "19/20" is the season 2019 to 2020. */
  lemma ParseSeasonTwoDigits(m: MatchGroups, kit: EventKit)
    requires 1 <= kit.season <= |m.captured| && m.captured[kit.season - 1] == Some("19/20")
    ensures ParseSeason(m, kit) == Ok(Season(2019, 2020))
  {
    assert Capture(m, kit.season) == Ok(Some("19/20"));
    SplitAtOnly('/', "19", "20");
    assert "19" + ['/'] + "20" == "19/20";
    ParseIntsTwoDigitYears();
  }

  /** A single year "2019" is the season 2019 to 2020. */
  lemma ParseSeasonOneYear(m: MatchGroups, kit: EventKit)
    requires 1 <= kit.season <= |m.captured| && m.captured[kit.season - 1] == Some("2019")
    ensures ParseSeason(m, kit) == Ok(Season(2019, 2020))
  {
    assert Capture(m, kit.season) == Ok(Some("2019"));
    SplitWithout('/', "2019");
    ParseIntsFullYear();
  }

  /**
   * The event data of a text: the metadata pattern must match somewhere
   * (metadata is its first match); otherwise the parse fails with an
   * IllegalArgumentException quoting the first 128 characters of the text
   * without underscores, and building that excerpt throws
   * StringIndexOutOfBoundsException when fewer are left.
   */
  function ParseEventData(text: String, metadata: Option<MatchGroups>, kit: EventKit,
                          parseDate: DateParser, today: DateTime): (r: Result<ParsedEvent>)
    ensures metadata.None? ==> r.Fail?
    ensures metadata.None? && FailExcerptAsWritten(text).Fail? ==> r.error == IndexOutOfBounds
    ensures metadata.None? && FailExcerptAsWritten(text).Ok? ==> r.error == UnparsableText(FailExcerptAsWritten(text).value)
    ensures metadata.Some? ==>
      var m := metadata.value;
      (r.Ok? <==> Capture(m, kit.homeTeamName).Ok? && Capture(m, kit.awayTeamName).Ok?
                  && Capture(m, kit.competitionName).Ok? && ParseDate(m, kit, parseDate, today).Ok?
                  && ParseFixture(m, kit).Ok? && ParseSeason(m, kit).Ok?)
      && (r.Ok? ==>
            r.value.homeTeam == TeamOf(Capture(m, kit.homeTeamName).value)
            && r.value.awayTeam == TeamOf(Capture(m, kit.awayTeamName).value)
            && r.value.competition == CompetitionOf(Capture(m, kit.competitionName).value)
            && r.value.date == ParseDate(m, kit, parseDate, today).value
            && r.value.fixture == ParseFixture(m, kit).value
            && r.value.season == ParseSeason(m, kit).value)
  {
    if metadata.None? then
      var excerpt :- FailExcerptAsWritten(text);
      Fail(UnparsableText(excerpt))
    else
      var m := metadata.value;
      var home :- Capture(m, kit.homeTeamName);
      var away :- Capture(m, kit.awayTeamName);
      var competition :- Capture(m, kit.competitionName);
      var date :- ParseDate(m, kit, parseDate, today);
      var fixture :- ParseFixture(m, kit);
      var season :- ParseSeason(m, kit);
      Ok(ParsedEvent(TeamOf(home), TeamOf(away), CompetitionOf(competition), season, fixture, date))
  }

  /** The number of characters of text the failure message quotes. */
  const ExcerptLength: nat := 128

  /**
   * The excerpt of the failure message as written: the text without
   * underscores, cut at 128 characters, which throws when fewer are left.
   */
  function FailExcerptAsWritten(text: String): (r: Result<String>)
    ensures r.Ok? <==> |Replace(text, "_", "")| >= ExcerptLength
    ensures r.Fail? ==> r.error == IndexOutOfBounds
  {
    var cleaned := Replace(text, "_", "");
    if |cleaned| < ExcerptLength then Fail(IndexOutOfBounds) else Ok(cleaned[..ExcerptLength])
  }

  /**
   * As written, a text shorter than 128 characters that the metadata pattern
   * does not match raises StringIndexOutOfBoundsException instead of the
   * intended IllegalArgumentException, e.g. "abc".
   */
  lemma FailExcerptThrowsOnShortText(text: String)
    requires |text| < ExcerptLength
    ensures FailExcerptAsWritten(text) == Fail(IndexOutOfBounds)
    ensures FailExcerptAsWritten("abc") == Fail(IndexOutOfBounds)
  {
    RemoveCharLeavesNone(text, '_');
    RemoveCharLeavesNone("abc", '_');
  }

  /** Whenever the written excerpt is built, it is the intended one. */
  lemma FailExcerptAgrees(text: String)
    ensures FailExcerptAsWritten(text).Ok? ==> FailExcerptAsWritten(text).value == FailExcerpt(text)
  {
  }

  /** The excerpt as intended: the text without underscores, cut at 128 characters when longer. */
  function FailExcerpt(text: String): (r: String)
    ensures |r| <= ExcerptLength && |r| <= |Replace(text, "_", "")|
    ensures r == Replace(text, "_", "")[..|r|]
    ensures |r| < ExcerptLength ==> r == Replace(text, "_", "")
    ensures !Contains(r, "_")
  {
    var cleaned := Replace(text, "_", "");
    RemoveCharLeavesNone(text, '_');
    var r := if |cleaned| < ExcerptLength then cleaned else cleaned[..ExcerptLength];
    assert !Contains(r, "_") by {
      NoOccurrenceBefore(cleaned, "_", 0, |r|);
      assert cleaned[0..|r|] == r;
    }
    r
  }

  // ---------------------------------------------------------------------
  // File source metadata
  // ---------------------------------------------------------------------

  /** The group numbers of a file-source metadata pattern kit. */
  datatype FileSourceKit = FileSourceKit(
    channel: int,
    resolution: int,
    source: int,
    duration: int,
    languages: int,
    container: int,
    videoCodec: int,
    audioCodec: int,
    audioChannels: int,
    videoBitrate: int,
    filesize: int,
    framerate: int)

  /** A linked video file: which part of the event it holds and its address. */
  datatype VideoFile = VideoFile(title: EventPartIdentifier, url: String)

  /** A pack of video files making up one copy of the event. */
  datatype VideoFilePack = VideoFilePack(files: seq<VideoFile>)

  const EmptyPack: VideoFilePack := VideoFilePack([])

  /**
   * VideoFilePack.put: the pack with the file in it, or None when the pack
   * refuses the file and stays as it was.
   */
  type PackPut = (VideoFilePack, VideoFile) -> Option<VideoFilePack>

  /**
   * The fields the VideoFileSource builder is given. Channels is the type of
   * the audio-channel field: a count here, the captured text in the later
   * parser.
   */
  datatype ParsedFileSource<Channels> = ParsedFileSource(
    channel: Option<String>,
    resolution: Option<Resolution>,
    source: Option<String>,
    approximateDuration: Option<String>,
    languages: Option<String>,
    mediaContainer: Option<String>,
    videoCodec: Option<String>,
    audioCodec: Option<String>,
    audioChannels: Channels,
    videoBitrate: int,
    fileSize: int,
    frameRate: int,
    videoFilePacks: seq<VideoFilePack>)

  /** The same file source with another audio-channel field. */
  function WithChannels<C, D>(x: ParsedFileSource<C>, channels: D): ParsedFileSource<D>
  {
    ParsedFileSource(x.channel, x.resolution, x.source, x.approximateDuration, x.languages,
                     x.mediaContainer, x.videoCodec, x.audioCodec, channels, x.videoBitrate,
                     x.fileSize, x.frameRate, x.videoFilePacks)
  }

  /** The sum of ints, with 32-bit wrap-around after each addition. */
  function Sum32(xs: seq<int>): (r: int)
    ensures INT_MIN <= r <= INT_MAX
  {
    if |xs| == 0 then 0 else Wrap32(xs[0] + Sum32(xs[1..]))
  }

  function Sum(xs: seq<int>): int
  {
    if |xs| == 0 then 0 else xs[0] + Sum(xs[1..])
  }

  lemma Wrap32Congruent(x: int, y: int)
    requires (x - y) % 0x1_0000_0000 == 0
    ensures Wrap32(x) == Wrap32(y)
  {
    var a := Wrap32(x);
    var b := Wrap32(y);
    assert (a - b) % 0x1_0000_0000 == 0;
    assert -0x1_0000_0000 < a - b < 0x1_0000_0000;
  }

  /** Wrapping after every addition is wrapping the exact sum once. */
  lemma {:induction false} Sum32IsWrappedSum(xs: seq<int>)
    ensures Sum32(xs) == Wrap32(Sum(xs))
  {
    if |xs| > 0 {
      Sum32IsWrappedSum(xs[1..]);
      Wrap32Congruent(xs[0] + Sum32(xs[1..]), Sum(xs));
    }
  }

  /**
   * parseAudioChannels: no data is 0 channels; otherwise the numbers between
   * the dots are added up ("5.1" is 6), and a piece that is not a number throws.
   */
  function ParseAudioChannels(data: Option<String>): (r: Result<int>)
    ensures data.None? ==> r == Ok(0)
    ensures data.Some? ==>
      var counts := ParseInts(Split(Literal("."), data.value));
      (r.Ok? <==> counts.Ok?) && (r.Ok? ==> r.value == Wrap32(Sum(counts.value)))
  {
    if data.None? then Ok(0)
    else
      var counts :- ParseInts(Split(Literal("."), data.value));
      Sum32IsWrappedSum(counts);
      Ok(Sum32(counts))
  }

  /** "5.1" channels are 6. */
  lemma ParseAudioChannelsSurround()
    ensures ParseAudioChannels(Some("5.1")) == Ok(6)
  {
    SplitAtOnly('.', "5", "1");
    assert "5" + ['.'] + "1" == "5.1";
    ParsePrinted(5, INT_MIN, INT_MAX);
    assert IntToString(5) == "5";
    ParsePrinted(1, INT_MIN, INT_MAX);
    assert IntToString(1) == "1";
    ParseIntsOf(["5", "1"], [5, 1]);
  }

  /** An empty channel text is not a number. */
  lemma ParseAudioChannelsEmpty()
    ensures ParseAudioChannels(Some("")) == Fail(NumberFormat)
  {
    SplitWithout('.', "");
  }

  /** A captured number parsed as a long, 0 when absent; a malformed number throws. */
  function CaptureLong(m: MatchGroups, group: int): (r: Result<int>)
    ensures Capture(m, group).Fail? ==> r == Fail(IndexOutOfBounds)
    ensures Capture(m, group) == Ok(None) ==> r == Ok(0)
    ensures Capture(m, group).Ok? && Capture(m, group).value.Some? ==>
      (r.Ok? <==> ParseLong(Capture(m, group).value.value).Some?)
      && (r.Ok? ==> Some(r.value) == ParseLong(Capture(m, group).value.value))
      && (r.Fail? ==> r.error == NumberFormat)
  {
    var text :- Capture(m, group);
    if text.None? then Ok(0)
    else match ParseLong(text.value)
      case None => Fail(NumberFormat)
      case Some(n) => Ok(n)
  }

  /**
   * createVideoFileSource: a missing resolution group means SD, a present one
   * is looked up (and may name no resolution); bitrate, size and frame rate
   * default to 0; the source starts without packs.
   */
  function CreateVideoFileSource(m: MatchGroups, kit: FileSourceKit): (r: Result<ParsedFileSource<int>>)
    ensures r.Ok? <==> CapturesOk(m, kit) && ParseAudioChannels(Capture(m, kit.audioChannels).value).Ok?
                       && CaptureLong(m, kit.videoBitrate).Ok? && CaptureLong(m, kit.filesize).Ok?
                       && CaptureInteger(m, kit.framerate).Ok?
    ensures r.Fail? ==> r.error in {IndexOutOfBounds, NumberFormat, Wrapped(NumberFormat)}
    ensures r.Ok? ==> r.value.videoFilePacks == []
    ensures r.Ok? ==> TextFields(m, kit, r.value)
    ensures r.Ok? ==> (Capture(m, kit.resolution).Ok? &&
      r.value.resolution == (if Capture(m, kit.resolution).value.None? then Some(R_SD)
                             else ResolutionFromString(Capture(m, kit.resolution).value.value)))
    ensures r.Ok? ==> (Capture(m, kit.audioChannels).Ok?
      && ParseAudioChannels(Capture(m, kit.audioChannels).value) == Ok(r.value.audioChannels))
    ensures r.Ok? ==> (CaptureLong(m, kit.videoBitrate) == Ok(r.value.videoBitrate)
      && CaptureLong(m, kit.filesize) == Ok(r.value.fileSize))
    ensures r.Ok? ==> (CaptureInteger(m, kit.framerate).Ok? &&
      r.value.frameRate == (if CaptureInteger(m, kit.framerate).value.None? then 0
                            else CaptureInteger(m, kit.framerate).value.value))
  {
    var channel :- Capture(m, kit.channel);
    var res :- Capture(m, kit.resolution);
    var resolution := if res.Some? then ResolutionFromString(res.value) else Some(R_SD);
    var source :- Capture(m, kit.source);
    var duration :- Capture(m, kit.duration);
    var languages :- Capture(m, kit.languages);
    var container :- Capture(m, kit.container);
    var vCodec :- Capture(m, kit.videoCodec);
    var aCodec :- Capture(m, kit.audioCodec);
    var aChannelData :- Capture(m, kit.audioChannels);
    var audioChannels :- ParseAudioChannels(aChannelData);
    var vBitrate :- CaptureLong(m, kit.videoBitrate);
    var filesize :- CaptureLong(m, kit.filesize);
    var framerateData :- CaptureInteger(m, kit.framerate);
    var framerate := if framerateData.Some? then framerateData.value else 0;
    Ok(ParsedFileSource(channel, resolution, source, duration, languages, container, vCodec, aCodec,
                        audioChannels, vBitrate, filesize, framerate, []))
  }

  /** Every group the file source reads as text can be read (none is negative). */
  predicate CapturesOk(m: MatchGroups, kit: FileSourceKit)
  {
    && Capture(m, kit.channel).Ok? && Capture(m, kit.resolution).Ok? && Capture(m, kit.source).Ok?
    && Capture(m, kit.duration).Ok? && Capture(m, kit.languages).Ok? && Capture(m, kit.container).Ok?
    && Capture(m, kit.videoCodec).Ok? && Capture(m, kit.audioCodec).Ok? && Capture(m, kit.audioChannels).Ok?
  }

  /** The text fields of a file source are the groups the kit names, as getNew reads them. */
  predicate TextFields<C>(m: MatchGroups, kit: FileSourceKit, x: ParsedFileSource<C>)
  {
    && Capture(m, kit.channel) == Ok(x.channel)
    && Capture(m, kit.source) == Ok(x.source)
    && Capture(m, kit.duration) == Ok(x.approximateDuration)
    && Capture(m, kit.languages) == Ok(x.languages)
    && Capture(m, kit.container) == Ok(x.mediaContainer)
    && Capture(m, kit.videoCodec) == Ok(x.videoCodec)
    && Capture(m, kit.audioCodec) == Ok(x.audioCodec)
  }

  // ---------------------------------------------------------------------
  // Part labels (findPartTitle, getPartIdentifier)
  // ---------------------------------------------------------------------

  /** The outcome of searching a sibling's text with the part-caption pattern: no match, or group 1. */
  datatype PartMatch = NoMatch | Matched(group1: Option<String>)

  /** The parts getPartIdentifier can recognise, in the order it tests them. */
  const LabelledParts: seq<EventPartIdentifier> :=
    [PRE_MATCH, FIRST_HALF, SECOND_HALF, POST_MATCH, TROPHY_CEREMONY]

  /** The lower-case keywords that caption a part. */
  function Keywords(p: EventPartIdentifier): seq<String>
  {
    match p
    case PRE_MATCH => ["pre"]
    case FIRST_HALF => ["1st", "first"]
    case SECOND_HALF => ["2nd", "second"]
    case POST_MATCH => ["post"]
    case TROPHY_CEREMONY => ["trophy"]
    case _ => []
  }

  predicate Mentions(caption: String, p: EventPartIdentifier)
  {
    exists w | w in Keywords(p) :: Contains(caption, w)
  }

  /** The position in LabelledParts, from index i on, of the first part the caption mentions. */
  function FirstMentioned(caption: String, i: nat): (r: Option<nat>)
    requires i <= |LabelledParts|
    decreases |LabelledParts| - i
    ensures r.Some? ==> i <= r.value < |LabelledParts| && Mentions(caption, LabelledParts[r.value])
    ensures r.Some? ==> forall k :: i <= k < r.value ==> !Mentions(caption, LabelledParts[k])
    ensures r.None? ==> forall k :: i <= k < |LabelledParts| ==> !Mentions(caption, LabelledParts[k])
  {
    if i == |LabelledParts| then None
    else if Mentions(caption, LabelledParts[i]) then Some(i)
    else FirstMentioned(caption, i + 1)
  }

  /**
   * getPartIdentifier: group 1 of the part-caption match, lower-cased, is
   * tested for the keywords of pre-match, first half, second half, post-match
   * and trophy ceremony in that order; the first mentioned part wins, and no
   * match or no keyword is null. A group that did not participate throws.
   */
  function GetPartIdentifier(pm: PartMatch): (r: Result<Option<EventPartIdentifier>>)
    ensures pm.NoMatch? ==> r == Ok(None)
    ensures pm == Matched(None) ==> r == Fail(NullPointer)
    ensures pm.Matched? && pm.group1.Some? ==>
      var caption := Lower(pm.group1.value);
      r.Ok?
      && (r.value.Some? ==> exists i :: (0 <= i < |LabelledParts| && r.value.value == LabelledParts[i]
            && Mentions(caption, LabelledParts[i])
            && forall k :: 0 <= k < i ==> !Mentions(caption, LabelledParts[k])))
      && (r.value.None? ==> forall k :: 0 <= k < |LabelledParts| ==> !Mentions(caption, LabelledParts[k]))
  {
    match pm
    case NoMatch => Ok(None)
    case Matched(g) =>
      if g.None? then Fail(NullPointer)
      else match FirstMentioned(Lower(g.value), 0)
        case Some(i) => Ok(Some(LabelledParts[i]))
        case None => Ok(None)
  }

  /** A caption naming the first half, in any letter case, is the first half unless it also says "pre". */
  lemma FirstHalfLabel(caption: String)
    requires Contains(Lower(caption), "first") && !Contains(Lower(caption), "pre")
    ensures GetPartIdentifier(Matched(Some(caption))) == Ok(Some(FIRST_HALF))
  {
    assert Mentions(Lower(caption), FIRST_HALF) by {
      assert "first" in Keywords(FIRST_HALF);
    }
    assert !Mentions(Lower(caption), PRE_MATCH);
  }

  /** No caption is read as extra time or as the default part. */
  lemma GetPartIdentifierNeverExtraTime(pm: PartMatch)
    ensures GetPartIdentifier(pm).Ok? && GetPartIdentifier(pm).value.Some? ==>
      GetPartIdentifier(pm).value.value !in {EXTRA_TIME, DEFAULT}
  {
  }

  /** The position of the first sibling whose caption decides the search: a part or an exception. */
  function FirstDeciding(siblings: seq<PartMatch>, i: nat): (r: Option<nat>)
    requires i <= |siblings|
    decreases |siblings| - i
    ensures r.Some? ==> i <= r.value < |siblings| && GetPartIdentifier(siblings[r.value]) != Ok(None)
    ensures r.Some? ==> forall k :: i <= k < r.value ==> GetPartIdentifier(siblings[k]) == Ok(None)
    ensures r.None? ==> forall k :: i <= k < |siblings| ==> GetPartIdentifier(siblings[k]) == Ok(None)
  {
    if i == |siblings| then None
    else if GetPartIdentifier(siblings[i]) != Ok(None) then Some(i)
    else FirstDeciding(siblings, i + 1)
  }

  /**
   * findPartTitle: the nearest preceding sibling with a part caption gives the
   * part; with none, DEFAULT. The stream stops at the first caption found, so a
   * sibling further away cannot make it throw.
   */
  function FindPartTitle(siblings: seq<PartMatch>): (r: Result<EventPartIdentifier>)
    ensures r == Ok(DEFAULT) <==> forall k :: 0 <= k < |siblings| ==> GetPartIdentifier(siblings[k]) == Ok(None)
    ensures r.Ok? && r.value != DEFAULT ==> exists i :: (0 <= i < |siblings|
      && GetPartIdentifier(siblings[i]) == Ok(Some(r.value))
      && forall k :: 0 <= k < i ==> GetPartIdentifier(siblings[k]) == Ok(None))
    ensures r.Fail? ==> r.error == NullPointer
  {
    match FirstDeciding(siblings, 0)
    case None => Ok(DEFAULT)
    case Some(i) =>
      var p :- GetPartIdentifier(siblings[i]);
      GetPartIdentifierNeverExtraTime(siblings[i]);
      Ok(p.value)
  }

  // ---------------------------------------------------------------------
  // Video file packs
  // ---------------------------------------------------------------------

  /** The position, from index i on, of the first pack that accepts f. */
  function FirstAccepting(packs: seq<VideoFilePack>, f: VideoFile, put: PackPut, i: nat): (r: Option<nat>)
    requires i <= |packs|
    decreases |packs| - i
    ensures r.Some? ==> i <= r.value < |packs| && put(packs[r.value], f).Some?
    ensures r.Some? ==> forall k :: i <= k < r.value ==> put(packs[k], f).None?
    ensures r.None? ==> forall k :: i <= k < |packs| ==> put(packs[k], f).None?
  {
    if i == |packs| then None
    else if put(packs[i], f).Some? then Some(i)
    else FirstAccepting(packs, f, put, i + 1)
  }

  /** The pack opened for a file no pack accepted: a new pack after put (whose answer is ignored). */
  function OpenPack(f: VideoFile, put: PackPut): VideoFilePack
  {
    match put(EmptyPack, f)
    case Some(p) => p
    case None => EmptyPack
  }

  /**
   * Where a file goes: into the first pack that accepts it, every other pack
   * unchanged; when none accepts it, into one new pack at the end.
   */
  function Placed(packs: seq<VideoFilePack>, f: VideoFile, put: PackPut): (r: seq<VideoFilePack>)
    ensures FirstAccepting(packs, f, put, 0).Some? ==>
      var j := FirstAccepting(packs, f, put, 0).value;
      |r| == |packs| && r[j] == put(packs[j], f).value
      && forall k :: 0 <= k < |packs| && k != j ==> r[k] == packs[k]
    ensures FirstAccepting(packs, f, put, 0).None? ==>
      |r| == |packs| + 1 && r[..|packs|] == packs && r[|packs|] == OpenPack(f, put)
  {
    match FirstAccepting(packs, f, put, 0)
    case Some(j) => packs[j := put(packs[j], f).value]
    case None => packs + [OpenPack(f, put)]
  }

  /**
   * putVideoFileInPack: offers the file to each pack in turn until one takes
   * it; if none does, a new pack holding it is appended.
   */
  method PutVideoFileInPack(packs: seq<VideoFilePack>, f: VideoFile, put: PackPut)
    returns (result: seq<VideoFilePack>)
    ensures result == Placed(packs, f, put)
    ensures |packs| <= |result| <= |packs| + 1
  {
    result := packs;
    var added := false;
    var i := 0;
    while i < |packs|
      invariant 0 <= i <= |packs|
      invariant !added ==> result == packs && FirstAccepting(packs, f, put, 0) == FirstAccepting(packs, f, put, i)
      invariant added ==> (FirstAccepting(packs, f, put, 0).Some? && FirstAccepting(packs, f, put, 0).value < i
        && result == packs[FirstAccepting(packs, f, put, 0).value := put(packs[FirstAccepting(packs, f, put, 0).value], f).value])
    {
      if !added {
        var answer := put(result[i], f);
        if answer.Some? {
          result := result[i := answer.value];
          added := true;
        }
      }
      i := i + 1;
    }
    if !added {
      var next := OpenPack(f, put);
      result := result + [next];
    }
  }

  /** A link to a video file: the part-caption matches of its preceding siblings, nearest first, and its href. */
  datatype Link = Link(siblings: seq<PartMatch>, href: String)

  /**
   * The packs the links of one kit make, links taken in document order; a link
   * whose address is not a URL is skipped, and a failing part search ends the
   * parse.
   */
  function PackAll(links: seq<Link>, packs: seq<VideoFilePack>, put: PackPut, isUrl: String -> bool): (r: Result<seq<VideoFilePack>>)
    decreases |links|
    ensures r.Ok? ==> |packs| <= |r.value| <= |packs| + |links|
  {
    if |links| == 0 then Ok(packs)
    else
      var title :- FindPartTitle(links[0].siblings);
      var next := if isUrl(links[0].href) then Placed(packs, VideoFile(title, links[0].href), put) else packs;
      PackAll(links[1..], next, put, isUrl)
  }

  /**
   * parseVideoFiles: each link's part title is found and, when its href is a
   * valid URL, the file is put in a pack.
   */
  method ParseVideoFiles(links: seq<Link>, put: PackPut, isUrl: String -> bool) returns (r: Result<seq<VideoFilePack>>)
    ensures r == PackAll(links, [], put, isUrl)
  {
    var packs: seq<VideoFilePack> := [];
    var i := 0;
    while i < |links|
      invariant 0 <= i <= |links|
      invariant PackAll(links, [], put, isUrl) == PackAll(links[i..], packs, put, isUrl)
    {
      assert links[i..][1..] == links[i + 1..];
      var title := FindPartTitle(links[i].siblings);
      if title.Fail? {
        return Fail(title.error);
      }
      if isUrl(links[i].href) {
        packs := PutVideoFileInPack(packs, VideoFile(title.value, links[i].href), put);
      }
      i := i + 1;
    }
    return Ok(packs);
  }

  /**
   * mapVideoFilesToFileSources: the i-th pack is added to the i-th file
   * source; surplus packs are dropped and surplus sources get nothing.
   */
  method MapVideoFilesToFileSources<C>(packs: seq<VideoFilePack>, sources: seq<ParsedFileSource<C>>)
    returns (result: seq<ParsedFileSource<C>>)
    ensures |result| == |sources|
    ensures forall i :: 0 <= i < |sources| && i < |packs| ==>
      result[i] == sources[i].(videoFilePacks := sources[i].videoFilePacks + [packs[i]])
    ensures forall i :: |packs| <= i < |sources| ==> result[i] == sources[i]
  {
    result := sources;
    var i := 0;
    while i < |packs|
      invariant 0 <= i <= |packs|
      invariant |result| == |sources|
      invariant forall k :: 0 <= k < |sources| && k < i ==>
        result[k] == sources[k].(videoFilePacks := sources[k].videoFilePacks + [packs[k]])
      invariant forall k :: i <= k < |sources| ==> result[k] == sources[k]
    {
      if |result| > i {
        var fileSource := result[i];
        result := result[i := fileSource.(videoFilePacks := fileSource.videoFilePacks + [packs[i]])];
      }
      i := i + 1;
    }
  }

  /** How a parser makes a file source of one match: createVideoFileSource. */
  type SourceMaker<C> = (MatchGroups, FileSourceKit) -> Result<ParsedFileSource<C>>

  /** Every match of a file-source pattern made into a file source, in order; the first failure ends it. */
  function CreateAll<C>(matches: seq<MatchGroups>, kit: FileSourceKit, make: SourceMaker<C>): (r: Result<seq<ParsedFileSource<C>>>)
    ensures r.Ok? <==> forall i :: 0 <= i < |matches| ==> make(matches[i], kit).Ok?
    ensures r.Ok? ==> |r.value| == |matches|
    ensures r.Ok? ==> forall i :: 0 <= i < |matches| ==> r.value[i] == make(matches[i], kit).value
  {
    if |matches| == 0 then Ok([])
    else
      var first :- make(matches[0], kit);
      var rest :- CreateAll(matches[1..], kit, make);
      Ok([first] + rest)
  }

  /**
   * What one file-source kit finds in a page: the groups of each successive
   * match of its metadata pattern, and the links its video-URL pattern selects.
   */
  datatype FileSourceScan = FileSourceScan(kit: FileSourceKit, matches: seq<MatchGroups>, links: seq<Link>)

  /** Each created source given the pack at its own position, when there is one. */
  function Attach<C>(created: seq<ParsedFileSource<C>>, packs: seq<VideoFilePack>): (r: seq<ParsedFileSource<C>>)
  {
    seq(|created|, i requires 0 <= i < |created| =>
      if i < |packs| then created[i].(videoFilePacks := created[i].videoFilePacks + [packs[i]]) else created[i])
  }

  /** The file sources one kit yields: every match made a source, each given the pack at its position. */
  function SourcesOf<C>(scan: FileSourceScan, make: SourceMaker<C>, put: PackPut, isUrl: String -> bool)
    : Result<seq<ParsedFileSource<C>>>
  {
    var created :- CreateAll(scan.matches, scan.kit, make);
    var packs :- PackAll(scan.links, [], put, isUrl);
    Ok(Attach(created, packs))
  }

  /**
   * parseFileSourceFrom: one file source per metadata match, each given the
   * pack at its own position.
   */
  method ParseFileSourceFrom<C>(scan: FileSourceScan, make: SourceMaker<C>, put: PackPut, isUrl: String -> bool)
    returns (r: Result<seq<ParsedFileSource<C>>>)
    ensures r == SourcesOf(scan, make, put, isUrl)
  {
    var created :- CreateAll(scan.matches, scan.kit, make);
    var packs :- ParseVideoFiles(scan.links, put, isUrl);
    var sources := MapVideoFilesToFileSources(packs, created);
    assert sources == Attach(created, packs);
    return Ok(sources);
  }

  /** One kit's sources hold its matches' sources, in order, each with the pack at its position. */
  lemma SourcesOfContents<C>(scan: FileSourceScan, make: SourceMaker<C>, put: PackPut, isUrl: String -> bool)
    ensures var r := SourcesOf(scan, make, put, isUrl);
      r.Ok? <==> CreateAll(scan.matches, scan.kit, make).Ok? && PackAll(scan.links, [], put, isUrl).Ok?
    ensures var r := SourcesOf(scan, make, put, isUrl);
      r.Ok? ==>
        var packs := PackAll(scan.links, [], put, isUrl).value;
        |r.value| == |scan.matches|
        && forall i :: 0 <= i < |scan.matches| ==>
             r.value[i] == (if i < |packs|
                            then make(scan.matches[i], scan.kit).value.(videoFilePacks := make(scan.matches[i], scan.kit).value.videoFilePacks + [packs[i]])
                            else make(scan.matches[i], scan.kit).value)
  {
  }

  /** The file sources of all kits, one kit after another (defined from the end, like the loop). */
  function AllSources<C>(scans: seq<FileSourceScan>, make: SourceMaker<C>, put: PackPut, isUrl: String -> bool)
    : Result<seq<ParsedFileSource<C>>>
  {
    if |scans| == 0 then Ok([])
    else
      match AllSources(scans[..|scans| - 1], make, put, isUrl)
      case Fail(e) => Fail(e)
      case Ok(init) =>
        match SourcesOf(scans[|scans| - 1], make, put, isUrl)
        case Fail(e) => Fail(e)
        case Ok(last) => Ok(init + last)
  }

  /** parseVideoFileSources: the file sources of every kit, one kit after another. */
  method ParseVideoFileSources<C>(scans: seq<FileSourceScan>, make: SourceMaker<C>, put: PackPut, isUrl: String -> bool)
    returns (r: Result<seq<ParsedFileSource<C>>>)
    ensures r == AllSources(scans, make, put, isUrl)
  {
    var all: seq<ParsedFileSource<C>> := [];
    var i := 0;
    while i < |scans|
      invariant 0 <= i <= |scans|
      invariant AllSources(scans[..i], make, put, isUrl) == Ok(all)
    {
      assert scans[..i + 1][..i] == scans[..i];
      var sources := ParseFileSourceFrom(scans[i], make, put, isUrl);
      if sources.Fail? {
        AllSourcesFailed(scans, make, put, isUrl, i + 1);
        return Fail(sources.error);
      }
      all := all + sources.value;
      i := i + 1;
    }
    assert scans[..i] == scans;
    return Ok(all);
  }

  /** Once the kits up to i fail, all of them fail with the same exception. */
  lemma {:induction false} AllSourcesFailed<C>(scans: seq<FileSourceScan>, make: SourceMaker<C>, put: PackPut,
                                                isUrl: String -> bool, i: nat)
    requires i <= |scans| && AllSources(scans[..i], make, put, isUrl).Fail?
    ensures AllSources(scans, make, put, isUrl) == AllSources(scans[..i], make, put, isUrl)
    decreases |scans| - i
  {
    if i < |scans| {
      var init := scans[..|scans| - 1];
      assert init[..i] == scans[..i];
      AllSourcesFailed(init, make, put, isUrl, i);
    } else {
      assert scans[..i] == scans;
    }
  }

  /** The number of file-source matches over all kits. */
  function SourceCount(scans: seq<FileSourceScan>): nat
  {
    if |scans| == 0 then 0 else SourceCount(scans[..|scans| - 1]) + |scans[|scans| - 1].matches|
  }

  /** Every kit yields one source per match. */
  lemma SourcesOfLength<C>(scan: FileSourceScan, make: SourceMaker<C>, put: PackPut, isUrl: String -> bool)
    requires SourcesOf(scan, make, put, isUrl).Ok?
    ensures |SourcesOf(scan, make, put, isUrl).value| == |scan.matches|
  {
    var created := CreateAll(scan.matches, scan.kit, make);
    assert |Attach(created.value, PackAll(scan.links, [], put, isUrl).value)| == |created.value|;
  }

  /** The sources of all kits number the matches of all kits. */
  lemma {:induction false} AllSourcesLength<C>(scans: seq<FileSourceScan>, make: SourceMaker<C>, put: PackPut,
                                                isUrl: String -> bool)
    requires AllSources(scans, make, put, isUrl).Ok?
    ensures |AllSources(scans, make, put, isUrl).value| == SourceCount(scans)
  {
    if |scans| > 0 {
      var n := |scans| - 1;
      AllSourcesLength(scans[..n], make, put, isUrl);
      SourcesOfLength(scans[n], make, put, isUrl);
    }
  }

  /** Counting the matches kit by kit: the prefix up to kit j adds kit j's matches. */
  lemma {:induction false} SourceCountPrefix(scans: seq<FileSourceScan>, j: nat)
    requires j < |scans|
    ensures SourceCount(scans[..j + 1]) == SourceCount(scans[..j]) + |scans[j].matches|
    ensures SourceCount(scans[..j + 1]) <= SourceCount(scans)
  {
    assert scans[..j + 1][..j] == scans[..j];
    var n := |scans| - 1;
    if j < n {
      SourceCountPrefix(scans[..n], j);
      assert scans[..n][..j] == scans[..j] && scans[..n][..j + 1] == scans[..j + 1];
    } else {
      assert scans[..j + 1] == scans;
    }
  }

  /** The sources of all kits are those of all but the last, then the last kit's. */
  lemma AllSourcesStep<C>(scans: seq<FileSourceScan>, make: SourceMaker<C>, put: PackPut, isUrl: String -> bool)
    requires |scans| > 0 && AllSources(scans, make, put, isUrl).Ok?
    ensures AllSources(scans[..|scans| - 1], make, put, isUrl).Ok?
    ensures SourcesOf(scans[|scans| - 1], make, put, isUrl).Ok?
    ensures AllSources(scans, make, put, isUrl).value
         == AllSources(scans[..|scans| - 1], make, put, isUrl).value + SourcesOf(scans[|scans| - 1], make, put, isUrl).value
  {
  }

  /** A slice within the front of a concatenation is a slice of the front. */
  lemma SliceOfFront<T>(front: seq<T>, back: seq<T>, lo: nat, hi: nat)
    requires lo <= hi <= |front|
    ensures (front + back)[lo..hi] == front[lo..hi]
  {
  }

  /**
   * The sources of all kits are every kit's sources laid end to end: kit j's
   * begin after the matches of the kits before it.
   */
  lemma {:induction false} AllSourcesLayout<C>(scans: seq<FileSourceScan>, make: SourceMaker<C>, put: PackPut,
                                                isUrl: String -> bool, j: nat)
    requires j < |scans| && AllSources(scans, make, put, isUrl).Ok?
    ensures SourcesOf(scans[j], make, put, isUrl).Ok?
    ensures |AllSources(scans, make, put, isUrl).value| == SourceCount(scans)
    ensures SourceCount(scans[..j + 1]) == SourceCount(scans[..j]) + |scans[j].matches|
    ensures SourceCount(scans[..j + 1]) <= SourceCount(scans)
    ensures var all := AllSources(scans, make, put, isUrl).value;
      all[SourceCount(scans[..j])..SourceCount(scans[..j + 1])] == SourcesOf(scans[j], make, put, isUrl).value
  {
    AllSourcesLength(scans, make, put, isUrl);
    SourceCountPrefix(scans, j);
    var upto := scans[..j + 1];
    AllSourcesPrefix(scans, make, put, isUrl, j + 1);
    AllSourcesStep(upto, make, put, isUrl);
    assert upto[..j] == scans[..j] && upto[j] == scans[j];
    AllSourcesLength(scans[..j], make, put, isUrl);
    var front := AllSources(scans[..j], make, put, isUrl).value;
    var mine := SourcesOf(scans[j], make, put, isUrl).value;
    assert (front + mine)[|front|..] == mine;
    SliceOfFront(front + mine, AllSources(scans, make, put, isUrl).value[|front + mine|..], |front|, |front + mine|);
  }

  /** The sources of the first k kits begin the sources of all kits. */
  lemma {:induction false} AllSourcesPrefix<C>(scans: seq<FileSourceScan>, make: SourceMaker<C>, put: PackPut,
                                                isUrl: String -> bool, k: nat)
    requires k <= |scans| && AllSources(scans, make, put, isUrl).Ok?
    ensures AllSources(scans[..k], make, put, isUrl).Ok?
    ensures AllSources(scans[..k], make, put, isUrl).value <= AllSources(scans, make, put, isUrl).value
    decreases |scans|
  {
    if k < |scans| {
      var n := |scans| - 1;
      AllSourcesStep(scans, make, put, isUrl);
      AllSourcesPrefix(scans[..n], make, put, isUrl, k);
      assert scans[..n][..k] == scans[..k];
    } else {
      assert scans[..k] == scans;
    }
  }

  /**
   * getEvent: the event data of the page text with the file sources of every
   * kit; the event is returned with the sources it is to be given.
   */
  method GetEvent(text: String, metadata: Option<MatchGroups>, kit: EventKit, scans: seq<FileSourceScan>,
                  put: PackPut, isUrl: String -> bool, parseDate: DateParser, today: DateTime)
    returns (r: Result<(ParsedEvent, seq<ParsedFileSource<int>>)>)
    ensures ParseEventData(text, metadata, kit, parseDate, today).Fail? ==>
      r == Fail(ParseEventData(text, metadata, kit, parseDate, today).error)
    ensures ParseEventData(text, metadata, kit, parseDate, today).Ok? ==>
      var sources := AllSources(scans, CreateVideoFileSource, put, isUrl);
      && (r.Ok? <==> sources.Ok?)
      && (r.Ok? ==> r.value == (ParseEventData(text, metadata, kit, parseDate, today).value, sources.value))
      && (r.Fail? ==> r.error == sources.error)
  {
    var event :- ParseEventData(text, metadata, kit, parseDate, today);
    var sources :- ParseVideoFileSources(scans, CreateVideoFileSource, put, isUrl);
    return Ok((event, sources));
  }

  /**
   * PatternKitAdapter.with over a collection of kits: the stream yields each
   * kit's event in turn, and the first kit that fails ends it with its
   * exception.
   */
  function WithAll<K, E>(kits: seq<K>, parse: K -> Result<E>): (r: Result<seq<E>>)
    ensures r.Ok? <==> forall i :: 0 <= i < |kits| ==> parse(kits[i]).Ok?
    ensures r.Ok? ==> |r.value| == |kits| && forall i :: 0 <= i < |kits| ==> r.value[i] == parse(kits[i]).value
    ensures r.Fail? ==> exists i :: (0 <= i < |kits| && parse(kits[i]) == Fail(r.error)
      && forall k :: 0 <= k < i ==> parse(kits[k]).Ok?)
  {
    if |kits| == 0 then Ok([])
    else
      var first :- parse(kits[0]);
      var rest :- WithAll(kits[1..], parse);
      Ok([first] + rest)
  }
}
