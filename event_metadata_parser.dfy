/**
 * The Blogger title parser
 * (src/main/java/self/me/matchday/plugin/datasource/bloggerparser/EventMetadataParser.java).
 * It reads competition, season, fixture, date and teams from a whole post
 * title with five configurable patterns (BloggerParserPatterns is not part
 * of this model). Each pattern is given as what its first find yields: the
 * matched text and the captured groups, a group that took part in no match
 * being None. The dd/MM/yyyy date parser and the clock are parameters.
 */
module EventMetadataParser {
  import opened Outcome
  import opened JavaString
  import opened Regex
  import opened Domain

  /** The five configured patterns, each given as its first find in a title. */
  datatype BloggerParserPatterns = BloggerParserPatterns(competition: Pattern, season: Pattern, fixture: Pattern,
                                                         date: Pattern, teams: Pattern)

  /** Integer.parseInt, which throws NumberFormatException for a null text as for a malformed one. */
  function ParseGroup(g: Option<String>): (r: Option<int>)
    ensures r.Some? <==> g.Some? && ParseInt(g.value).Some?
    ensures r.Some? ==> r.value == ParseInt(g.value).value
  {
    if g.None? then None else ParseInt(g.value)
  }

  /** The millennium fixYear adds to a year written with at most two digits. */
  const Millennium: int := 2000

  /** fixYear: years below 100 are two-digit years of this millennium; others are kept. */
  function FixYear(year: int): (r: int)
    ensures year < 100 ==> r == year + Millennium
    ensures year >= 100 ==> r == year
  {
    if year < 100 then year + Millennium else year
  }

  /** A two-digit year becomes a year of this century, and fixing a fixed year changes nothing. */
  lemma FixYearSettles(year: int)
    requires year >= 0
    ensures year < 100 ==> 2000 <= FixYear(year) < 2100
    ensures FixYear(FixYear(year)) == FixYear(year)
  {
  }

  /** parseCompetitionData: the trimmed match of the competition pattern; InvalidBloggerPostException without one. */
  function ParseCompetitionData(patterns: BloggerParserPatterns, title: String): (r: Result<Competition>)
    ensures r.Fail? <==> patterns.competition(title).None?
    ensures r.Fail? ==> r.error == InvalidBloggerPost
    ensures r.Ok? ==> r.value.name == Trim(patterns.competition(title).value.text)
  {
    match patterns.competition(title)
    case None => Fail(InvalidBloggerPost)
    case Some(m) => Ok(Competition(Trim(m.text)))
  }

  /**
   * parseSeasonData: both captured years through fixYear; the default
   * season without a match or when a year does not parse. A missing group
   * is not caught.
   */
  function ParseSeasonData(patterns: BloggerParserPatterns, title: String): (r: Result<Season>)
    ensures patterns.season(title).None? ==> r == Ok(DefaultSeason)
    ensures r.Fail? ==> r.error == IndexOutOfBounds
    ensures r.Ok? && r.value.Season? ==>
      var m := patterns.season(title).value;
      |m.groups| >= 2 && ParseGroup(m.groups[0]).Some? && ParseGroup(m.groups[1]).Some?
      && r.value.startYear == FixYear(ParseGroup(m.groups[0]).value)
      && r.value.endYear == FixYear(ParseGroup(m.groups[1]).value)
    ensures patterns.season(title).Some? && |patterns.season(title).value.groups| >= 2 ==>
      var m := patterns.season(title).value;
      r.Ok? && (r.value.Season? <==> ParseGroup(m.groups[0]).Some? && ParseGroup(m.groups[1]).Some?)
  {
    match patterns.season(title)
    case None => Ok(DefaultSeason)
    case Some(m) =>
      var start :- Group(m, 1);
      match ParseGroup(start)
      case None => Ok(DefaultSeason)
      case Some(startYear) =>
        var end :- Group(m, 2);
        match ParseGroup(end)
        case None => Ok(DefaultSeason)
        case Some(endYear) => Ok(Season(FixYear(startYear), FixYear(endYear)))
  }

  /**
   * parseFixtureData: group 1 as the fixture's title when it is present;
   * otherwise, with groups 3 and 4 both present, the number group 3 gives
   * once every occurrence of group 4 is removed from it; the empty fixture
   * otherwise, or when that number does not parse. A missing group is not
   * caught.
   */
  function ParseFixtureData(patterns: BloggerParserPatterns, title: String): (r: Result<Fixture>)
    ensures patterns.fixture(title).None? ==> r == Ok(EmptyFixture)
    ensures r.Fail? ==> r.error == IndexOutOfBounds
    ensures patterns.fixture(title).Some? && |patterns.fixture(title).value.groups| >= 4 ==> r.Ok?
    ensures r.Ok? && r.value.title.Some? ==>
              patterns.fixture(title).Some? && |patterns.fixture(title).value.groups| >= 1
              && patterns.fixture(title).value.groups[0].Some?
              && r.value == TitledFixture(patterns.fixture(title).value.groups[0].value)
    ensures r.Ok? && r.value.number.Some? ==>
      var g := patterns.fixture(title).value.groups;
      |g| >= 4 && g[0].None? && g[2].Some? && g[3].Some?
      && r.value == Fixture(None, ParseInt(ReplaceAny(g[2].value, g[3].value, "")))
  {
    match patterns.fixture(title)
    case None => Ok(EmptyFixture)
    case Some(m) =>
      var fixtureTitle :- Group(m, 1);
      if fixtureTitle.Some? then Ok(TitledFixture(fixtureTitle.value))
      else
        var number :- Group(m, 3);
        if number.None? then Ok(EmptyFixture)
        else
          var suffix :- Group(m, 4);
          if suffix.None? then Ok(EmptyFixture)
          else match ParseInt(ReplaceAny(number.value, suffix.value, ""))
            case None => Ok(EmptyFixture)
            case Some(i) => Ok(Fixture(None, Some(i)))
  }

  /** parseDateData: the date group parsed as a day, or the current time when anything about it fails. */
  function ParseDateData(patterns: BloggerParserPatterns, title: String, parseDate: DateParser, now: DateTime)
    : (r: DateTime)
    ensures r != now ==> patterns.date(title).Some? && |patterns.date(title).value.groups| >= 1
                         && patterns.date(title).value.groups[0].Some?
                         && parseDate(patterns.date(title).value.groups[0].value) == Some(r)
  {
    match patterns.date(title)
    case None => now
    case Some(m) =>
      if |m.groups| >= 1 && m.groups[0].Some? && parseDate(m.groups[0].value).Some? then
        parseDate(m.groups[0].value).value
      else now
  }

  /**
   * getEvent: competition, season, fixture and date in that order; a Match
   * between the trimmed groups 1 and 2 of the teams pattern when it finds,
   * otherwise a Highlight titled with the whole title.
   */
  function GetEvent(patterns: BloggerParserPatterns, title: String, parseDate: DateParser, now: DateTime)
    : (r: Result<Event>)
    ensures patterns.competition(title).None? ==> r == Fail(InvalidBloggerPost)
    ensures r.Ok? ==>
      && ParseCompetitionData(patterns, title).Ok? && ParseSeasonData(patterns, title).Ok?
      && ParseFixtureData(patterns, title).Ok?
      && r.value.competition == ParseCompetitionData(patterns, title).value
      && r.value.season == ParseSeasonData(patterns, title).value
      && r.value.fixture == ParseFixtureData(patterns, title).value
      && r.value.date == ParseDateData(patterns, title, parseDate, now)
    ensures r.Ok? ==> (r.value.Match? <==> patterns.teams(title).Some?)
    ensures r.Ok? && r.value.HighlightShow? ==> r.value.title == title
    ensures r.Ok? && r.value.Match? ==>
      var g := patterns.teams(title).value.groups;
      |g| >= 2 && g[0].Some? && g[1].Some?
      && r.value.homeTeam == Team(Trim(g[0].value)) && r.value.awayTeam == Team(Trim(g[1].value))
  {
    var competition :- ParseCompetitionData(patterns, title);
    var season :- ParseSeasonData(patterns, title);
    var fixture :- ParseFixtureData(patterns, title);
    var date := ParseDateData(patterns, title, parseDate, now);
    match patterns.teams(title)
    case Some(m) =>
      var home :- Group(m, 1);
      var away :- Group(m, 2);
      if home.None? || away.None? then Fail(NullPointer)
      else Ok(Match(competition, season, fixture, date, Team(Trim(home.value)), Team(Trim(away.value))))
    case None => Ok(HighlightShow(competition, season, fixture, title, date))
  }

  /** A title every pattern reads as intended gives the match those readings describe. */
  lemma WellFormedTitleIsMatch(patterns: BloggerParserPatterns, title: String, parseDate: DateParser, now: DateTime,
                               home: String, away: String)
    requires patterns.competition(title).Some?
    requires patterns.season(title).None? || |patterns.season(title).value.groups| >= 2
    requires patterns.fixture(title).None? || |patterns.fixture(title).value.groups| >= 4
    requires patterns.teams(title) == Some(MatchResult(title, [Some(home), Some(away)]))
    ensures GetEvent(patterns, title, parseDate, now).Ok?
    ensures GetEvent(patterns, title, parseDate, now).value.Match?
    ensures GetEvent(patterns, title, parseDate, now).value.homeTeam == Team(Trim(home))
  {
  }
}
