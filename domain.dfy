/**
 * The value entities the title parsers build: competitions, teams, seasons,
 * fixtures, timestamps and the two kinds of event (a match between two teams,
 * or a highlight show with a free title).
 */
module Domain {
  import opened Outcome
  import opened JavaString

  datatype Competition = Competition(name: String)

  datatype Team = Team(name: String)

  /** `new Season()` is DefaultSeason; `new Season(start, end)` is Season. */
  datatype Season = DefaultSeason | Season(startYear: int, endYear: int)

  /**
   * `new Fixture()` has neither part, `new Fixture(title)` only the title and
   * `new Fixture(title, number)` both.
   */
  datatype Fixture = Fixture(title: Option<String>, number: Option<int>)

  const EmptyFixture: Fixture := Fixture(None, None)

  function TitledFixture(title: String): Fixture
  {
    Fixture(Some(title), None)
  }

  function NumberedFixture(title: String, number: int): Fixture
  {
    Fixture(Some(title), Some(number))
  }

  /** A LocalDateTime, as seconds from 1970-01-01T00:00. */
  datatype DateTime = DateTime(seconds: int)

  /** A date parser of the java.time API: the parsed instant, or nothing when the text does not parse. */
  type DateParser = String -> Option<DateTime>

  datatype Event =
    | Match(competition: Competition, season: Season, fixture: Fixture, date: DateTime,
            homeTeam: Team, awayTeam: Team)
    | HighlightShow(competition: Competition, season: Season, fixture: Fixture, title: String,
                    date: DateTime)
}
