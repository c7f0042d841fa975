/**
 * The older Galataman title parser
 * (feed/blogger/galataman/GalatamanEventDataParser.java). It reads the
 * competition, season, fixture and teams by the same rules as
 * GalatamanEventParser, which are used from there; it differs in taking the
 * event date from the post's publication time instead of a fourth title part,
 * so a title of three parts is enough.
 */
module GalatamanEventDataParser {
  import opened Outcome
  import opened JavaString
  import opened Regex
  import opened Domain
  import GalatamanEventParser

  /**
   * The constructor and getEvent: competition and season from part 0, fixture
   * from part 1 and teams from part 2; the date is the publication time. A
   * title with fewer than three parts makes the array access throw.
   */
  function GetEvent(title: String, published: DateTime): (r: Result<Event>)
    ensures r.Fail? <==> |GalatamanEventParser.TitleParts(title)| < 3
    ensures r.Fail? ==> r.error == IndexOutOfBounds
    ensures r.Ok? ==>
      var parts := GalatamanEventParser.TitleParts(title);
      var e := r.value;
      e.competition == GalatamanEventParser.ParseCompetitionData(parts[0])
      && e.season == GalatamanEventParser.ParseSeasonData(parts[0]).value
      && e.fixture == GalatamanEventParser.ParseFixtureData(parts[1])
      && e.date == published
      && (e.Match? <==> Found(GalatamanEventParser.TeamPattern, parts[2]))
      && (e.Match? ==> (e.homeTeam, e.awayTeam) == GalatamanEventParser.SetupTeams(parts[2]).value)
      && (e.HighlightShow? ==> e.title == parts[2])
  {
    var parts := GalatamanEventParser.TitleParts(title);
    if |parts| <= 0 then Fail(IndexOutOfBounds)
    else
      var competition := GalatamanEventParser.ParseCompetitionData(parts[0]);
      var season := GalatamanEventParser.ParseSeasonData(parts[0]).value;
      if |parts| <= 1 then Fail(IndexOutOfBounds)
      else
        var fixture := GalatamanEventParser.ParseFixtureData(parts[1]);
        if |parts| <= 2 then Fail(IndexOutOfBounds)
        else
          match GalatamanEventParser.SetupTeams(parts[2])
          case Some((home, away)) => Ok(Match(competition, season, fixture, published, home, away))
          case None => Ok(HighlightShow(competition, season, fixture, parts[2], published))
  }

  /**
   * On a title of four or more parts both parsers build the same event when
   * the newer one's date does not parse and its current time is the
   * publication time; a three-part title only this parser accepts.
   */
  lemma AgreesWithEventParser(title: String, published: DateTime)
    ensures |GalatamanEventParser.TitleParts(title)| >= 4 ==>
      GetEvent(title, published) == GalatamanEventParser.GetEvent(title, _ => None, published)
    ensures |GalatamanEventParser.TitleParts(title)| == 3 ==>
      GetEvent(title, published).Ok? && GalatamanEventParser.GetEvent(title, _ => None, published).Fail?
  {
  }
}
