/**
 * The Galataman blog-post title parser
 * (feed/blogger/galataman/GalatamanEventParser.java). A title reads
 * "Competition Season - Fixture - Home vs Away - dd/MM/yyyy"; it is split on
 * " - " and each part is read by its own rule.
 *
 * The parser object only assigns its fields while it is constructed, so the
 * constructor and getEvent are modelled together as one function of the title.
 */
module GalatamanEventParser {
  import opened Outcome
  import opened JavaString
  import opened Regex
  import opened Domain

  /** TITLE_SPLITTER, used as a regular expression by String.split. */
  const TitleSplitter: String := " - "

  const Millennium: int := 2000

  /** SEASON_PATTERN `\d{2}/?\d{2}` at one position; the optional slash is tried first. */
  const SeasonPattern: Matcher :=
    (s: String, i: nat) =>
      if DigitAt(s, i) && DigitAt(s, i + 1) then
        if i + 2 < |s| && s[i + 2] == '/' && DigitAt(s, i + 3) && DigitAt(s, i + 4) then Some(i + 5)
        else if DigitAt(s, i + 2) && DigitAt(s, i + 3) then Some(i + 4)
        else None
      else None

  /** FIXTURE_PATTERN `\d{2}`. */
  const FixturePattern: Matcher := TwoDigits

  /** TEAM_PATTERN ` vs.? ` at one position: `.` is any character but a line terminator. */
  const TeamPattern: Matcher :=
    (s: String, i: nat) =>
      if i + 3 <= |s| && s[i..i + 3] == " vs" then
        if i + 5 <= |s| && !IsLineTerminator(s[i + 3]) && s[i + 4] == ' ' then Some(i + 5)
        else if i + 4 <= |s| && s[i + 3] == ' ' then Some(i + 4)
        else None
      else None

  /** The two shapes a season match can take: "yyyy" or "yy/yy". */
  predicate IsSeasonText(t: String)
  {
    (|t| == 4 && AllDigits(t))
    || (|t| == 5 && t[2] == '/' && AllDigits(t[..2]) && AllDigits(t[3..]))
  }

  /** The text of the first season match in a title part, if any. */
  function SeasonText(part: String): (r: Option<String>)
    ensures r.None? <==> !Found(SeasonPattern, part)
    ensures r.Some? ==> IsSeasonText(r.value)
  {
    match Find(SeasonPattern, part, 0)
    case None => None
    case Some(sp) =>
      var t := part[sp.start..sp.end];
      assert |t| == 5 ==> t[..2] == part[sp.start..sp.start + 2] && t[3..] == part[sp.start + 3..sp.end];
      Some(t)
  }

  /**
   * parseCompetitionData: the part without the season text (every occurrence
   * of it removed), or the whole part when it holds no season.
   */
  function ParseCompetitionData(part: String): (r: Competition)
    ensures SeasonText(part).None? ==> r.name == part
    ensures SeasonText(part).Some? ==>
      r.name == Replace(part, SeasonText(part).value, "")
      && |r.name| <= |part| - 4
  {
    match SeasonText(part)
    case None => Competition(part)
    case Some(t) =>
      var name := Replace(part, t, "");
      assert Contains(part, t) by {
        var sp := Find(SeasonPattern, part, 0).value;
        assert OccursAt(part, t, sp.start);
        ContainsIff(part, t);
      }
      RemoveShortens(part, t);
      Competition(name)
  }

  /**
   * parseSeasonData as written: a slashed season is split on "/" and must give
   * exactly two years, each added to 2000; a slash-less one is a year y giving
   * (y, y + 1); no season gives the default Season. The exception branch and
   * the number parsing can never fail on a season match, which the contract
   * states: the result is always a season, with these years.
   */
  function ParseSeasonData(part: String): (r: Result<Season>)
    ensures r.Ok?
    ensures SeasonText(part).None? ==> r.value == DefaultSeason
    ensures SeasonText(part).Some? && |SeasonText(part).value| == 5 ==>
      var t := SeasonText(part).value;
      r.value == Season(Millennium + DigitsValue(t[..2]), Millennium + DigitsValue(t[3..]))
    ensures SeasonText(part).Some? && |SeasonText(part).value| == 4 ==>
      var t := SeasonText(part).value;
      r.value == Season(DigitsValue(t), DigitsValue(t) + 1)
  {
    match SeasonText(part)
    case None => Ok(DefaultSeason)
    case Some(t) =>
      SeasonYears(t);
      if Contains(t, "/") then
        var years := Split(Literal("/"), t);
        if |years| != 2 then Fail(InvalidMetadata)
        else
          var start := ParseIntChecked(years[0]);
          var end := ParseIntChecked(years[1]);
          if start.Fail? || end.Fail? then Fail(NumberFormat)
          else Ok(Season(Wrap32(Millennium + start.value), Wrap32(Millennium + end.value)))
      else
        var start := ParseIntChecked(t);
        if start.Fail? then Fail(NumberFormat)
        else Ok(Season(start.value, Wrap32(start.value + 1)))
  }

  /** How a season text splits and parses. */
  lemma SeasonYears(t: String)
    requires IsSeasonText(t)
    ensures |t| == 5 ==> Contains(t, "/") && Split(Literal("/"), t) == [t[..2], t[3..]]
    ensures |t| == 5 ==> ParseInt(t[..2]) == Some(DigitsValue(t[..2])) && ParseInt(t[3..]) == Some(DigitsValue(t[3..]))
    ensures |t| == 4 ==> !Contains(t, "/") && ParseInt(t) == Some(DigitsValue(t))
    ensures |t| == 5 ==> DigitsValue(t[..2]) < 100 && DigitsValue(t[3..]) < 100
    ensures |t| == 4 ==> DigitsValue(t) < 10000
  {
    if |t| == 5 {
      assert OccursAt(t, "/", 2);
      ContainsIff(t, "/");
      assert '/' !in t[..2] by {
        forall k | 0 <= k < 2 ensures t[..2][k] != '/' { assert IsDigit(t[..2][k]); }
      }
      assert '/' !in t[3..] by {
        forall k | 0 <= k < 2 ensures t[3..][k] != '/' { assert IsDigit(t[3..][k]); }
      }
      assert t == t[..2] + ['/'] + t[3..];
      SplitAtOnly('/', t[..2], t[3..]);
      ParseShortDigits(t[..2]);
      ParseShortDigits(t[3..]);
      DigitsValueBelow(t[..2]);
      DigitsValueBelow(t[3..]);
    } else {
      forall k: nat
        ensures !OccursAt(t, "/", k)
      {
        if k + 1 <= |t| {
          assert t[k..k + 1][0] == t[k];
        }
      }
      ContainsIff(t, "/");
      ParseShortDigits(t);
      DigitsValueBelow(t);
    }
  }

  /**
   * parseFixtureData: the first two-digit run is the fixture number and the
   * text before it the fixture title; without one, the whole part is the title.
   */
  function ParseFixtureData(part: String): (r: Fixture)
    ensures !Found(FixturePattern, part) ==> r == TitledFixture(part)
    ensures Found(FixturePattern, part) ==>
      var sp := Find(FixturePattern, part, 0).value;
      r.title == Some(part[..sp.start]) && r.number.Some? && 0 <= r.number.value <= 99
      && DigitAt(part, sp.start) && DigitAt(part, sp.start + 1)
      && r.number.value == 10 * DigitValue(part[sp.start]) + DigitValue(part[sp.start + 1])
    ensures Found(FixturePattern, part) ==>
      forall k :: 0 <= k < Find(FixturePattern, part, 0).value.start ==> !(DigitAt(part, k) && DigitAt(part, k + 1))
  {
    match Find(FixturePattern, part, 0)
    case None => TitledFixture(part)
    case Some(sp) =>
      var digits := part[sp.start..sp.end];
      assert AllDigits(digits);
      ParseShortDigits(digits);
      assert digits[..1] == [part[sp.start]];
      assert DigitsValue(digits) == 10 * DigitValue(part[sp.start]) + DigitValue(part[sp.start + 1]) by {
        assert DigitsValue(digits[..1]) == DigitValue(part[sp.start]) by {
          assert digits[..1][..0] == [];
        }
      }
      forall k | 0 <= k < sp.start
        ensures !(DigitAt(part, k) && DigitAt(part, k + 1))
      {
        assert MatchEnd(FixturePattern, part, k).None?;
      }
      NumberedFixture(part[..sp.start], ParseInt(digits).value)
  }

  /** parseDateData: the dd/MM/yyyy date, or the current time when it does not parse. */
  function ParseDateData(part: String, parseDate: DateParser, now: DateTime): (r: DateTime)
    ensures parseDate(part).Some? ==> r == parseDate(part).value
    ensures parseDate(part).None? ==> r == now
  {
    match parseDate(part)
    case Some(d) => d
    case None => now
  }

  /**
   * setupTeams: home and away are the trimmed texts before and after the first
   * " vs " (or " vs. ", or " vs" and any one character); none without it.
   */
  function SetupTeams(part: String): (r: Option<(Team, Team)>)
    ensures r.None? <==> !Found(TeamPattern, part)
    ensures r.Some? ==>
      var sp := Find(TeamPattern, part, 0).value;
      IsTeamSeparator(part[sp.start..sp.end])
      && r.value.0.name == Trim(part[..sp.start]) && r.value.1.name == Trim(part[sp.end..])
  {
    match Find(TeamPattern, part, 0)
    case None => None
    case Some(sp) =>
      TeamMatchShape(part, sp.start);
      Some((Team(Trim(part[..sp.start])), Team(Trim(part[sp.end..]))))
  }

  /** What ` vs.? ` matches: " vs " or " vs" followed by one character that is not a line terminator and a space. */
  predicate IsTeamSeparator(t: String)
  {
    (|t| == 4 && t == " vs ") || (|t| == 5 && t[..3] == " vs" && !IsLineTerminator(t[3]) && t[4] == ' ')
  }

  lemma TeamMatchShape(s: String, i: nat)
    requires MatchEnd(TeamPattern, s, i).Some?
    ensures IsTeamSeparator(s[i..MatchEnd(TeamPattern, s, i).value])
  {
    var e := MatchEnd(TeamPattern, s, i).value;
    assert s[i..e][..3] == s[i..i + 3];
  }

  /** The title parts: the pieces between occurrences of " - ", trailing empty ones dropped. */
  function TitleParts(title: String): seq<String>
  {
    Split(Literal(TitleSplitter), title)
  }

  /** No title part holds the separator, and with nothing dropped the parts rejoin to the title. */
  lemma TitlePartsRejoin(title: String)
    ensures forall k :: 0 <= k < |TitleParts(title)| ==> !Contains(TitleParts(title)[k], TitleSplitter)
    ensures Found(Literal(TitleSplitter), title) && |TitleParts(title)| == |Pieces(Literal(TitleSplitter), title, 0)| ==>
      Join(TitleParts(title), TitleSplitter) == title
  {
    PiecesLiteralFree(TitleSplitter, title, 0);
    JoinPiecesLiteral(TitleSplitter, title, 0);
    if !Found(Literal(TitleSplitter), title) {
      FindLiteral(TitleSplitter, title, 0);
      NoOccurrenceInSuffix(title, TitleSplitter, 0);
      assert title[0..] == title;
    }
  }

  /**
   * The constructor and getEvent: competition and season from part 0, fixture
   * from part 1, date from part 3 and teams from part 2, read in that order; a
   * title with fewer than four parts makes the array access throw. With teams
   * the event is a Match, otherwise a HighlightShow titled with part 2.
   */
  function GetEvent(title: String, parseDate: DateParser, now: DateTime): (r: Result<Event>)
    ensures r.Fail? <==> |TitleParts(title)| < 4
    ensures r.Fail? ==> r.error == IndexOutOfBounds
    ensures r.Ok? ==>
      var parts := TitleParts(title);
      var e := r.value;
      e.competition == ParseCompetitionData(parts[0])
      && e.season == ParseSeasonData(parts[0]).value
      && e.fixture == ParseFixtureData(parts[1])
      && e.date == ParseDateData(parts[3], parseDate, now)
      && (e.Match? <==> Found(TeamPattern, parts[2]))
      && (e.Match? ==> (e.homeTeam, e.awayTeam) == SetupTeams(parts[2]).value)
      && (e.HighlightShow? ==> e.title == parts[2])
  {
    var parts := TitleParts(title);
    if |parts| <= 0 then Fail(IndexOutOfBounds)
    else
      var competition := ParseCompetitionData(parts[0]);
      var season := ParseSeasonData(parts[0]).value;
      if |parts| <= 1 then Fail(IndexOutOfBounds)
      else
        var fixture := ParseFixtureData(parts[1]);
        if |parts| <= 3 then Fail(IndexOutOfBounds)
        else
          var date := ParseDateData(parts[3], parseDate, now);
          match SetupTeams(parts[2])
          case Some((home, away)) => Ok(Match(competition, season, fixture, date, home, away))
          case None => Ok(HighlightShow(competition, season, fixture, parts[2], date))
  }

  /** A two-digit season "19/20" is the 2019-2020 season. */
  lemma SeasonExampleSlashed()
    ensures ParseSeasonData("19/20").value == Season(2019, 2020)
  {
    var t := "19/20";
    assert SeasonPattern(t, 0) == Some(5);
    assert Find(SeasonPattern, t, 0) == Some(Span(0, 5));
    assert SeasonText(t) == Some(t) by { assert t[0..5] == t; }
    assert t[..2] == "19" && t[3..] == "20";
    assert DigitsValue("19") == 19 by { assert "19"[..1] == "1"; }
    assert DigitsValue("20") == 20 by { assert "20"[..1] == "2"; }
  }

  /** A year "2021" starts the 2021-2022 season. */
  lemma SeasonExampleYear()
    ensures ParseSeasonData("2021").value == Season(2021, 2022)
  {
    var t := "2021";
    assert SeasonPattern(t, 0) == Some(4);
    assert Find(SeasonPattern, t, 0) == Some(Span(0, 4));
    assert SeasonText(t) == Some(t) by { assert t[0..4] == t; }
    assert DigitsValue("2021") == 2021 by {
      assert "2021"[..3] == "202" && "202"[..2] == "20" && "20"[..1] == "2";
    }
  }
}
