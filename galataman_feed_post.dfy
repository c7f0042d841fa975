/**
 * The Galataman feed post (feed/galataman/GalatamanPost.java): its builder
 * runs BloggerPost's readers, then parseMatchSources, which walks the
 * content's siblings from the start element and builds a
 * GalatamanMatchSource from every header's HTML and the URLs of the video
 * links after it, wrapping any exception in a GalatamanPostParseException;
 * then the post's constructor keeps the sources and runs MatchDataParser
 * over the title.
 *
 * MatchDataParser splits the title on " - ", reads the competition and the
 * season from part 0, then classifies every part, part 0 included: a
 * dd/dd/dddd part is the date, a "team vs team" part the teams, and any
 * other part the fixture, so the last part of each kind wins. The
 * publication year, the date parser and the MD5 digest of the title are
 * outside the model: the year and the date parser are parameters, and the
 * match keeps the title its identifier is the digest of.
 */
module GalatamanFeedPost {
  import opened Outcome
  import opened JavaString
  import opened Regex
  import opened Domain
  import opened TokenScan
  import opened GalatamanMetadata
  import opened GalatamanFeedMatchSource
  import opened GalatamanPostParts
  import GalatamanEventParser

  // ---------------------------------------------------------------------
  // The season of part 0
  // ---------------------------------------------------------------------

  const Millennium: int := 2000

  /** `\d{4}` at one position. */
  const FourDigits: Matcher :=
    (s: String, i: nat) =>
      if DigitAt(s, i) && DigitAt(s, i + 1) && DigitAt(s, i + 2) && DigitAt(s, i + 3) then Some(i + 4) else None

  /** `\d{2}/\d{2}` at one position. */
  const SplitYears: Matcher :=
    (s: String, i: nat) =>
      if DigitAt(s, i) && DigitAt(s, i + 1) && i + 2 < |s| && s[i + 2] == '/' && DigitAt(s, i + 3) && DigitAt(s, i + 4)
      then Some(i + 5) else None

  /**
   * parseCompetitionData's season: the publication year and the next by
   * default; the first four-digit run is the end year, else the first
   * "xx/xx" gives both years past 2000. A NumberFormatException or an
   * IndexOutOfBoundsException is caught and keeps the years assigned before
   * it.
   */
  function SeasonOf(part: String, publishedYear: int): Season
  {
    var startYear := publishedYear;
    var endYear := startYear + 1;
    match Find(FourDigits, part, 0)
    case Some(sp) =>
      (match ParseInt(part[sp.start..sp.end])
       case Some(v) => Season(v - 1, v)
       case None => Season(startYear, endYear))
    case None =>
      match Find(SplitYears, part, 0)
      case None => Season(startYear, endYear)
      case Some(sp) =>
        var years := Split(Literal("/"), part[sp.start..sp.end]);
        if |years| < 1 then Season(startYear, endYear)
        else match ParseInt(years[0])
          case None => Season(startYear, endYear)
          case Some(a) =>
            if |years| < 2 then Season(a + Millennium, endYear)
            else match ParseInt(years[1])
              case None => Season(a + Millennium, endYear)
              case Some(b) => Season(a + Millennium, b + Millennium)
  }

  /**
   * The three seasons part 0 can give, and no exception is ever caught: a
   * four-digit run v gives (v - 1, v), else "xx/yy" gives (2000 + xx,
   * 2000 + yy), else the publication year and the next.
   */
  lemma SeasonCases(part: String, publishedYear: int)
    ensures Found(FourDigits, part) ==>
              var sp := Find(FourDigits, part, 0).value;
              var t := part[sp.start..sp.end];
              |t| == 4 && AllDigits(t) && SeasonOf(part, publishedYear) == Season(DigitsValue(t) - 1, DigitsValue(t))
    ensures !Found(FourDigits, part) && Found(SplitYears, part) ==>
              var sp := Find(SplitYears, part, 0).value;
              var t := part[sp.start..sp.end];
              && |t| == 5 && AllDigits(t[..2]) && t[2] == '/' && AllDigits(t[3..])
              && SeasonOf(part, publishedYear) == Season(Millennium + DigitsValue(t[..2]), Millennium + DigitsValue(t[3..]))
    ensures !Found(FourDigits, part) && !Found(SplitYears, part) ==>
              SeasonOf(part, publishedYear) == Season(publishedYear, publishedYear + 1)
  {
    if Found(FourDigits, part) {
      SeasonOfFourDigits(part, publishedYear);
    } else if Found(SplitYears, part) {
      SeasonOfSplitYears(part, publishedYear);
    }
  }

  /** The four-digit case of SeasonCases. */
  lemma SeasonOfFourDigits(part: String, publishedYear: int)
    requires Found(FourDigits, part)
    ensures var sp := Find(FourDigits, part, 0).value;
            var t := part[sp.start..sp.end];
            |t| == 4 && AllDigits(t) && SeasonOf(part, publishedYear) == Season(DigitsValue(t) - 1, DigitsValue(t))
  {
    var sp := Find(FourDigits, part, 0).value;
    var t := part[sp.start..sp.end];
    assert AllDigits(t) by {
      forall k | 0 <= k < 4 ensures IsDigit(t[k]) { assert DigitAt(part, sp.start + k); }
    }
    ParseShortDigits(t);
  }

  /** The "xx/yy" case of SeasonCases. */
  lemma SeasonOfSplitYears(part: String, publishedYear: int)
    requires !Found(FourDigits, part) && Found(SplitYears, part)
    ensures var sp := Find(SplitYears, part, 0).value;
            var t := part[sp.start..sp.end];
            && |t| == 5 && AllDigits(t[..2]) && t[2] == '/' && AllDigits(t[3..])
            && SeasonOf(part, publishedYear) == Season(Millennium + DigitsValue(t[..2]), Millennium + DigitsValue(t[3..]))
  {
    var sp := Find(SplitYears, part, 0).value;
    var t := part[sp.start..sp.end];
    assert t[..2] == part[sp.start..sp.start + 2] && t[3..] == part[sp.start + 3..sp.end];
    assert GalatamanEventParser.IsSeasonText(t);
    GalatamanEventParser.SeasonYears(t);
  }

  /** A season written with a four-digit year is read as ending in it, even when a short end year follows. */
  lemma SeasonExample(publishedYear: int)
    ensures SeasonOf("2019/20", publishedYear) == Season(2018, 2019)
  {
    var s: String := "2019/20";
    assert MatchEnd(FourDigits, s, 0) == Some(4);
    SeasonCases(s, publishedYear);
    assert s[0..4] == "2019";
    assert DigitsValue("2019") == 2019 by {
      assert "2019"[..3] == "201" && "201"[..2] == "20" && "20"[..1] == "2" && "2"[..0] == [];
    }
  }

  // ---------------------------------------------------------------------
  // The parts of the title
  // ---------------------------------------------------------------------

  /** DATE_PATTERN `\d{2}/\d{2}/\d{4}` matches the whole part. */
  predicate IsDatePart(part: String)
  {
    && |part| == 10
    && DigitAt(part, 0) && DigitAt(part, 1) && part[2] == '/'
    && DigitAt(part, 3) && DigitAt(part, 4) && part[5] == '/'
    && DigitAt(part, 6) && DigitAt(part, 7) && DigitAt(part, 8) && DigitAt(part, 9)
  }

  /** The class `[a-zA-ZÀ-ſ\s-]` of a team name's characters. */
  predicate TeamChar(c: char)
  {
    IsAsciiLetter(c) || ('\U{00C0}' <= c <= '\U{017F}') || IsSpace(c) || c == '-'
  }

  /** `([class])+`: a non-empty run of team characters. */
  predicate TeamName(s: String)
  {
    |s| > 0 && forall k :: 0 <= k < |s| ==> TeamChar(s[k])
  }

  /** TEAMS_PATTERN matches the whole part with its " vs" at i: a name, " vs", an optional character, a space and a name. */
  predicate TeamsAt(s: String, i: nat)
  {
    && i + 3 <= |s| && TeamName(s[..i]) && s[i..i + 3] == " vs"
    && ((i + 4 <= |s| && s[i + 3] == ' ' && TeamName(s[i + 4..]))
        || (i + 5 <= |s| && !IsLineTerminator(s[i + 3]) && s[i + 4] == ' ' && TeamName(s[i + 5..])))
  }

  /** TEAMS_PATTERN matches the whole part. */
  predicate IsTeamsPart(s: String)
  {
    exists i :: 0 <= i < |s| && TeamsAt(s, i)
  }

  /** What the date, team and fixture branches have set so far. */
  datatype Reading = Reading(homeTeam: Option<Team>, awayTeam: Option<Team>, fixture: Option<Fixture>,
                             date: Option<DateTime>)

  /** Before any part is read, nothing is set. */
  const Unread: Reading := Reading(None, None, None, None)

  /**
   * One part of the forEach: a date part is parsed with "d/MM/yyyy", a
   * teams part is split on " vs.? " into home and away, and any other part
   * replaces the fixture.
   */
  function ReadPart(st: Reading, part: String, parseDate: DateParser): Result<Reading>
  {
    if IsDatePart(part) then
      match parseDate(part)
      case None => Fail(DateTimeParse)
      case Some(d) => Ok(st.(date := Some(d)))
    else if IsTeamsPart(part) then
      var teams := Split(GalatamanEventParser.TeamPattern, part);
      if |teams| < 2 then Fail(IndexOutOfBounds)
      else Ok(st.(homeTeam := Some(Team(teams[0])), awayTeam := Some(Team(teams[1]))))
    else Ok(st.(fixture := Some(TitledFixture(part))))
  }

  /** The forEach over the parts, stopped by the first exception. */
  function ReadParts(st: Reading, parts: seq<String>, parseDate: DateParser): Result<Reading>
    decreases |parts|
  {
    if parts == [] then Ok(st)
    else match ReadParts(st, parts[..|parts| - 1], parseDate)
      case Fail(e) => Fail(e)
      case Ok(s) => ReadPart(s, parts[|parts| - 1], parseDate)
  }

  /** A part whose branch throws: a date that does not parse, or teams that split into fewer than two names. */
  predicate PartFails(part: String, parseDate: DateParser)
  {
    if IsDatePart(part) then parseDate(part).None?
    else IsTeamsPart(part) && |Split(GalatamanEventParser.TeamPattern, part)| < 2
  }

  /** The kinds of part the forEach tells apart, in the order it tries them. */
  datatype PartKind = DatePart | TeamsPart | OtherPart

  function KindOf(part: String): PartKind
  {
    if IsDatePart(part) then DatePart else if IsTeamsPart(part) then TeamsPart else OtherPart
  }

  /** The index of the last part of a kind. */
  function LastOfKind(parts: seq<String>, kind: PartKind): (r: Option<nat>)
    ensures r.Some? ==> r.value < |parts| && KindOf(parts[r.value]) == kind
    ensures r.Some? ==> forall k :: r.value < k < |parts| ==> KindOf(parts[k]) != kind
    ensures r.None? ==> forall k :: 0 <= k < |parts| ==> KindOf(parts[k]) != kind
  {
    if parts == [] then None
    else if KindOf(parts[|parts| - 1]) == kind then Some(|parts| - 1)
    else LastOfKind(parts[..|parts| - 1], kind)
  }

  /** The forEach throws exactly when one of the parts' branches does, with that branch's exception. */
  lemma {:induction false} ReadPartsFail(st: Reading, parts: seq<String>, parseDate: DateParser)
    ensures ReadParts(st, parts, parseDate).Fail? <==> exists k :: 0 <= k < |parts| && PartFails(parts[k], parseDate)
    ensures ReadParts(st, parts, parseDate).Fail? ==> ReadParts(st, parts, parseDate).error in {DateTimeParse, IndexOutOfBounds}
    decreases |parts|
  {
    if parts != [] {
      var init := parts[..|parts| - 1];
      ReadPartsFail(st, init, parseDate);
      assert forall k :: 0 <= k < |init| ==> init[k] == parts[k];
      if exists k :: 0 <= k < |init| && PartFails(init[k], parseDate) {
        var k :| 0 <= k < |init| && PartFails(init[k], parseDate);
        assert PartFails(parts[k], parseDate);
      }
    }
  }

  /**
   * After a forEach that did not throw, the fixture is the last part that is
   * neither a date nor teams, the date that of the last date part, and home
   * and away the names around the first separator of the last teams part;
   * what no part sets keeps its value.
   */
  lemma {:induction false} ReadPartsLast(st: Reading, parts: seq<String>, parseDate: DateParser)
    requires ReadParts(st, parts, parseDate).Ok?
    ensures var r := ReadParts(st, parts, parseDate).value;
            r.fixture == match LastOfKind(parts, OtherPart)
                         case None => st.fixture
                         case Some(k) => Some(TitledFixture(parts[k]))
    ensures var r := ReadParts(st, parts, parseDate).value;
            r.date == match LastOfKind(parts, DatePart)
                      case None => st.date
                      case Some(k) => parseDate(parts[k])
    ensures var r := ReadParts(st, parts, parseDate).value;
            match LastOfKind(parts, TeamsPart)
            case None => r.homeTeam == st.homeTeam && r.awayTeam == st.awayTeam
            case Some(k) =>
              var teams := Split(GalatamanEventParser.TeamPattern, parts[k]);
              |teams| >= 2 && r.homeTeam == Some(Team(teams[0])) && r.awayTeam == Some(Team(teams[1]))
    decreases |parts|
  {
    if parts != [] {
      var init := parts[..|parts| - 1];
      ReadPartsLast(st, init, parseDate);
      assert forall k :: 0 <= k < |init| ==> init[k] == parts[k];
      forall kind | KindOf(parts[|parts| - 1]) != kind
        ensures LastOfKind(parts, kind) == LastOfKind(init, kind)
      {
      }
    }
  }

  // ---------------------------------------------------------------------
  // MatchDataParser
  // ---------------------------------------------------------------------

  /** The match MatchBuilder builds; the title stands for its MD5 identifier. */
  datatype FeedMatch = FeedMatch(matchIdText: String, homeTeam: Option<Team>, awayTeam: Option<Team>,
                                 competition: Competition, season: Season, fixture: Option<Fixture>,
                                 date: Option<DateTime>)

  /**
   * parse() from a given state: part 0's competition and season, then the
   * forEach; a title without parts makes titleParts.get(0) throw.
   */
  function ParseFrom(title: String, parts: seq<String>, publishedYear: int, st: Reading, parseDate: DateParser)
    : Result<FeedMatch>
  {
    if parts == [] then Fail(IndexOutOfBounds)
    else
      var r :- ReadParts(st, parts, parseDate);
      Ok(FeedMatch(title, r.homeTeam, r.awayTeam, Competition(parts[0]), SeasonOf(parts[0], publishedYear),
                   r.fixture, r.date))
  }

  /** `new MatchDataParser(title).parse()`. */
  function MatchOf(title: String, publishedYear: int, parseDate: DateParser): Result<FeedMatch>
  {
    ParseFrom(title, GalatamanEventParser.TitleParts(title), publishedYear, Unread, parseDate)
  }

  /**
   * The match of a title: its competition is the whole of part 0 and its
   * season read from it; its fixture, date and teams come from the last
   * part of each kind, and are null when there is none; it fails exactly
   * when the title has no parts or a part's branch throws.
   */
  lemma MatchOfTitle(title: String, publishedYear: int, parseDate: DateParser)
    ensures var parts := GalatamanEventParser.TitleParts(title);
            MatchOf(title, publishedYear, parseDate).Fail? <==>
              parts == [] || exists k :: 0 <= k < |parts| && PartFails(parts[k], parseDate)
    ensures var parts := GalatamanEventParser.TitleParts(title);
            var r := MatchOf(title, publishedYear, parseDate);
            r.Ok? ==>
              && r.value.matchIdText == title
              && r.value.competition == Competition(parts[0])
              && r.value.season == SeasonOf(parts[0], publishedYear)
              && r.value.fixture == (match LastOfKind(parts, OtherPart)
                                     case None => None
                                     case Some(k) => Some(TitledFixture(parts[k])))
              && r.value.date == (match LastOfKind(parts, DatePart)
                                  case None => None
                                  case Some(k) => parseDate(parts[k]))
              && (LastOfKind(parts, TeamsPart).None? <==> r.value.homeTeam.None?)
              && (LastOfKind(parts, TeamsPart).None? <==> r.value.awayTeam.None?)
  {
    var parts := GalatamanEventParser.TitleParts(title);
    ReadPartsFail(Unread, parts, parseDate);
    if parts != [] && ReadParts(Unread, parts, parseDate).Ok? {
      ReadPartsLast(Unread, parts, parseDate);
    }
  }

  /** The parser: the title's parts, its identifier, the publication year, and the fields parse() fills in. */
  class MatchDataParser {
    const titleParts: seq<String>
    const matchIdText: String
    const publishedYear: int
    var homeTeam: Option<Team>
    var awayTeam: Option<Team>
    var competition: Option<Competition>
    var season: Option<Season>
    var fixture: Option<Fixture>
    var date: Option<DateTime>

    /** The fields the forEach sets. */
    function Current(): Reading
      reads this
    {
      Reading(homeTeam, awayTeam, fixture, date)
    }

    /** The constructor: the title split on " - "; every field null. */
    constructor(title: String, publishedYear: int)
      ensures titleParts == GalatamanEventParser.TitleParts(title) && matchIdText == title
      ensures this.publishedYear == publishedYear
      ensures Current() == Unread && competition.None? && season.None?
    {
      titleParts := GalatamanEventParser.TitleParts(title);
      matchIdText := title;
      this.publishedYear := publishedYear;
      homeTeam, awayTeam, competition, season, fixture, date := None, None, None, None, None, None;
    }

    /** parseCompetitionData: the competition is the whole part, and the season is read from it. */
    method ParseCompetitionData(competitionTitle: String)
      modifies this
      ensures competition == Some(Competition(competitionTitle))
      ensures season == Some(SeasonOf(competitionTitle, publishedYear))
      ensures Current() == old(Current())
    {
      competition := Some(Competition(competitionTitle));
      season := Some(SeasonOf(competitionTitle, publishedYear));
    }

    /** The body of parse()'s forEach for one part. */
    method ReadOne(part: String, parseDate: DateParser) returns (thrown: Option<Exception>)
      modifies this
      ensures thrown.None? <==> ReadPart(old(Current()), part, parseDate).Ok?
      ensures thrown.None? ==> ReadPart(old(Current()), part, parseDate) == Ok(Current())
      ensures thrown.Some? ==> ReadPart(old(Current()), part, parseDate) == Fail(thrown.value)
      ensures competition == old(competition) && season == old(season)
    {
      thrown := None;
      if IsDatePart(part) {
        var d := parseDate(part);
        if d.None? {
          return Some(DateTimeParse);
        }
        date := d;
      } else if IsTeamsPart(part) {
        var teams := Split(GalatamanEventParser.TeamPattern, part);
        if |teams| < 1 {
          return Some(IndexOutOfBounds);
        }
        homeTeam := Some(Team(teams[0]));
        if |teams| < 2 {
          return Some(IndexOutOfBounds);
        }
        awayTeam := Some(Team(teams[1]));
      } else {
        fixture := Some(TitledFixture(part));
      }
    }

    /** parse(): the competition data of part 0, then each part in order, then the match. */
    method Parse(parseDate: DateParser) returns (r: Result<FeedMatch>)
      modifies this
      ensures r == ParseFrom(matchIdText, titleParts, publishedYear, old(Current()), parseDate)
    {
      if |titleParts| == 0 {
        return Fail(IndexOutOfBounds);
      }
      ghost var st := Current();
      ParseCompetitionData(titleParts[0]);
      var i := 0;
      while i < |titleParts|
        invariant 0 <= i <= |titleParts|
        invariant ReadParts(st, titleParts[..i], parseDate) == Ok(Current())
        invariant competition == Some(Competition(titleParts[0]))
        invariant season == Some(SeasonOf(titleParts[0], publishedYear))
      {
        assert titleParts[..i + 1][..i] == titleParts[..i];
        var thrown := ReadOne(titleParts[i], parseDate);
        if thrown.Some? {
          ReadPartsStop(st, titleParts, i, parseDate);
          return Fail(thrown.value);
        }
        i := i + 1;
      }
      assert titleParts[..i] == titleParts;
      return Ok(FeedMatch(matchIdText, homeTeam, awayTeam, competition.value, season.value, fixture, date));
    }
  }

  /** A part that throws after the parts before it were read ends the forEach with its exception. */
  lemma ReadPartsStop(st: Reading, parts: seq<String>, i: nat, parseDate: DateParser)
    requires i < |parts|
    requires ReadParts(st, parts[..i], parseDate).Ok?
    requires ReadPart(ReadParts(st, parts[..i], parseDate).value, parts[i], parseDate).Fail?
    ensures ReadParts(st, parts, parseDate) == ReadPart(ReadParts(st, parts[..i], parseDate).value, parts[i], parseDate)
  {
    assert parts[..i + 1][..i] == parts[..i];
    ReadPartsStopped(st, parts, i + 1, parseDate);
  }

  /** Once the forEach has thrown, the later parts change nothing. */
  lemma {:induction false} ReadPartsStopped(st: Reading, parts: seq<String>, i: nat, parseDate: DateParser)
    requires i <= |parts|
    requires ReadParts(st, parts[..i], parseDate).Fail?
    ensures ReadParts(st, parts, parseDate) == ReadParts(st, parts[..i], parseDate)
    decreases |parts|
  {
    if i < |parts| {
      assert parts[..|parts| - 1][..i] == parts[..i];
      ReadPartsStopped(st, parts[..|parts| - 1], i, parseDate);
    } else {
      assert parts[..i] == parts;
    }
  }

  /** `new MatchDataParser(getTitle()).parse()`. */
  method NewMatch(title: String, publishedYear: int, parseDate: DateParser) returns (r: Result<FeedMatch>)
    ensures r == MatchOf(title, publishedYear, parseDate)
  {
    var parser := new MatchDataParser(title, publishedYear);
    r := parser.Parse(parseDate);
  }

  // ---------------------------------------------------------------------
  // The post
  // ---------------------------------------------------------------------

  /** `new GalatamanMatchSourceBuilder(html, urls).build()` as the walk's processor. */
  function Processor(d: Delimiters): GalatamanPostParts.Processor<GalatamanMatchSource>
  {
    (html: String, urls: seq<String>) => Build(html, urls, d)
  }

  /** A built post: BloggerPost's fields, the unmodifiable list of sources and the match. */
  datatype GalatamanPost = GalatamanPost(fields: BloggerFields, matchFileSources: seq<GalatamanMatchSource>,
                                         matchData: FeedMatch)

  /**
   * build(): BloggerPost's readers, then parseMatchSources over the parsed
   * content, then the constructor's MatchDataParser over the title with the
   * year of the publication time; the first exception escapes.
   */
  function PostOf(fields: Result<BloggerFields>, parseHtml: String -> seq<Element>, p: PagePatterns,
                  d: Delimiters, validUrl: String -> bool, yearOf: DateTime -> int, parseDate: DateParser)
    : (r: Result<GalatamanPost>)
    ensures fields.Fail? ==> r == Fail(fields.error)
    ensures fields.Ok? && UrlSources(parseHtml(fields.value.content), p, validUrl, Processor(d)).Fail? ==>
              r == Fail(UrlSources(parseHtml(fields.value.content), p, validUrl, Processor(d)).error)
    ensures r.Ok? <==>
              && fields.Ok?
              && UrlSources(parseHtml(fields.value.content), p, validUrl, Processor(d)).Ok?
              && MatchOf(fields.value.title, yearOf(fields.value.published), parseDate).Ok?
    ensures r.Ok? ==>
              && r.value.fields == fields.value
              && r.value.matchFileSources == UrlSources(parseHtml(fields.value.content), p, validUrl, Processor(d)).value
              && r.value.matchData == MatchOf(fields.value.title, yearOf(fields.value.published), parseDate).value
  {
    var f :- fields;
    var sources :- UrlSources(parseHtml(f.content), p, validUrl, Processor(d));
    var m :- MatchOf(f.title, yearOf(f.published), parseDate);
    Ok(GalatamanPost(f, sources, m))
  }

  /** `new GalatamanPostBuilder(bloggerPost).build()`. */
  method BuildPost(fields: Result<BloggerFields>, parseHtml: String -> seq<Element>, p: PagePatterns,
                   d: Delimiters, validUrl: String -> bool, yearOf: DateTime -> int, parseDate: DateParser)
    returns (r: Result<GalatamanPost>)
    ensures r == PostOf(fields, parseHtml, p, d, validUrl, yearOf, parseDate)
  {
    var builder := new FeedPostBuilder<GalatamanMatchSource>(fields);
    if builder.fields.Fail? {
      return Fail(builder.fields.error);
    }
    var f := builder.fields.value;
    var doc := parseHtml(f.content);
    var thrown := builder.ParseMatchSources(doc, p, validUrl, Processor(d));
    if thrown.Some? {
      return Fail(thrown.value);
    }
    assert builder.sources == UrlSources(doc, p, validUrl, Processor(d)).value;
    var m := NewMatch(f.title, yearOf(f.published), parseDate);
    if m.Fail? {
      return Fail(m.error);
    }
    return Ok(GalatamanPost(f, builder.sources, m.value));
  }

  /**
   * Each header from the start element on yields one match source, built
   * from its HTML and the URLs of the video links up to the next header; a
   * bad URL or bad metadata at any header makes the post throw.
   */
  lemma SourcesFollowHeaders(doc: seq<Element>, p: PagePatterns, d: Delimiters, validUrl: String -> bool)
    requires StartIndex(doc, p.startOfSource, 0).Some?
    ensures var r := UrlSources(doc, p, validUrl, Processor(d));
            var hs := Headers(doc, StartIndex(doc, p.startOfSource, 0).value, |doc|, UrlRules(p));
            r.Ok? <==>
              forall k :: 0 <= k < |hs| ==>
                var links := Links(Segment(doc, hs[k], UrlRules(p)), UrlRules(p));
                AllValid(links, validUrl) && ParseFields(doc[hs[k]].html, Config(d)).Ok?
    ensures var r := UrlSources(doc, p, validUrl, Processor(d));
            var hs := Headers(doc, StartIndex(doc, p.startOfSource, 0).value, |doc|, UrlRules(p));
            r.Ok? ==>
              && |r.value| == |hs|
              && forall k :: 0 <= k < |hs| ==>
                   var links := Links(Segment(doc, hs[k], UrlRules(p)), UrlRules(p));
                   && r.value[k].metadataStr == doc[hs[k]].html
                   && r.value[k].urls == Hrefs(links)
  {
    UrlSourcesFollowHeaders(doc, p, validUrl, Processor(d));
  }
}
