/**
 * The ZKFootball blog-post title parser
 * (feed/blogger/zkfootball/ZKFEventParser.java). The title is split on " - ";
 * each part is classified (competition and season, teams, fixture) and the
 * last part of each class is remembered by its index; then the competition,
 * teams and fixture are read from those parts, each step updating the
 * parser's fields.
 */
module ZKFEventParser {
  import opened Outcome
  import opened JavaString
  import opened Regex
  import opened Domain

  const TitleSplitter: String := " - "

  const Millennia: int := 2000

  predicate WordOrSpace(c: char)
  {
    IsWordChar(c) || c == ' '
  }

  // ---------------------------------------------------------------------
  // The patterns
  // ---------------------------------------------------------------------

  /** SEASON_PATTERN `\d{2,4}/\d{2}` at i: a run of two to four digits, a slash and two digits. */
  predicate SeasonAt(s: String, i: nat)
  {
    var n := RunLength(IsDigit, s, i);
    2 <= n <= 4 && i + n + 2 < |s| && s[i + n] == '/' && IsDigit(s[i + n + 1]) && IsDigit(s[i + n + 2])
  }

  const SeasonPattern: Matcher :=
    (s: String, i: nat) => if SeasonAt(s, i) then Some(i + RunLength(IsDigit, s, i) + 3) else None

  /**
   * COMP_SEASON_PATTERN `[\w ]+ \d{2,4}/\d{2}`, as far as find() is concerned:
   * some match exists exactly when a word character or space, a space and a
   * season follow one another, here searched for from position j on.
   */
  predicate CompSeasonFrom(s: String, j: nat)
    decreases |s| - j
  {
    j + 1 < |s| && ((WordOrSpace(s[j]) && s[j + 1] == ' ' && SeasonAt(s, j + 2)) || CompSeasonFrom(s, j + 1))
  }

  predicate IsCompSeasonPart(s: String)
  {
    CompSeasonFrom(s, 0)
  }

  /** ` [Vv][Ss].? ` followed by a word character, at j. */
  predicate VersusWordAt(s: String, j: nat)
  {
    j + 3 <= |s| && s[j] == ' ' && s[j + 1] in "Vv" && s[j + 2] in "Ss"
    && ((j + 5 < |s| && !IsLineTerminator(s[j + 3]) && s[j + 4] == ' ' && IsWordChar(s[j + 5]))
        || (j + 4 < |s| && s[j + 3] == ' ' && IsWordChar(s[j + 4])))
  }

  /**
   * TEAMS_PATTERN `[\w ]+ [Vv][Ss].? [\w]+`, as far as find() is concerned: a
   * word character or space followed by ` vs ` (or ` vs. `) and a word
   * character, here searched for from position j on.
   */
  predicate TeamsFrom(s: String, j: nat)
    decreases |s| - j
  {
    j < |s| && ((WordOrSpace(s[j]) && VersusWordAt(s, j + 1)) || TeamsFrom(s, j + 1))
  }

  predicate IsTeamsPart(s: String)
  {
    TeamsFrom(s, 0)
  }

  /** FIXTURE_PATTERN `([Ss][Ee][Mm][Ii]-)?([Ff][Ii][Nn][Aa][Ll])|(Matchday \d*)`, found. */
  predicate IsFixturePart(s: String)
  {
    Contains(Lower(s), "final") || Contains(s, "Matchday ")
  }

  /** The season matcher accepts exactly at the start of a season. */
  lemma SeasonMatchEnd(s: String, i: nat)
    ensures MatchEnd(SeasonPattern, s, i) == if SeasonAt(s, i) then Some(i + RunLength(IsDigit, s, i) + 3) else None
  {
  }

  /** The split pattern ` [Vv][Ss].? ` at i; the optional character is tried first. */
  const VersusPattern: Matcher :=
    (s: String, i: nat) =>
      if i + 3 <= |s| && s[i] == ' ' && s[i + 1] in "Vv" && s[i + 2] in "Ss" then
        if i + 5 <= |s| && !IsLineTerminator(s[i + 3]) && s[i + 4] == ' ' then Some(i + 5)
        else if i + 4 <= |s| && s[i + 3] == ' ' then Some(i + 4)
        else None
      else None

  /** TITLE_FIXTURE_PATTERN `J\d{2}`. */
  const MatchdayPattern: Matcher :=
    (s: String, i: nat) => if i + 3 <= |s| && s[i] == 'J' && IsDigit(s[i + 1]) && IsDigit(s[i + 2]) then Some(i + 3) else None

  // ---------------------------------------------------------------------
  // Classifying the title parts (parsePartIndices)
  // ---------------------------------------------------------------------

  datatype PartCategory = CompSeasonPart | TeamsPart | FixturePart | OtherPart

  /** The first of the three tests that a part passes, in the order the loop tries them. */
  function CategoryOf(part: String): (c: PartCategory)
    ensures c == CompSeasonPart <==> IsCompSeasonPart(part)
    ensures c == TeamsPart <==> !IsCompSeasonPart(part) && IsTeamsPart(part)
    ensures c == FixturePart <==> !IsCompSeasonPart(part) && !IsTeamsPart(part) && IsFixturePart(part)
  {
    if IsCompSeasonPart(part) then CompSeasonPart
    else if IsTeamsPart(part) then TeamsPart
    else if IsFixturePart(part) then FixturePart
    else OtherPart
  }

  /** The index of the last of the first n parts in category c, or -1. */
  function LastOf(parts: seq<String>, n: nat, c: PartCategory): (k: int)
    requires n <= |parts|
    ensures -1 <= k < n
  {
    if n == 0 then -1
    else if CategoryOf(parts[n - 1]) == c then n - 1
    else LastOf(parts, n - 1, c)
  }

  /** The index found is of a part in the category, and no later part is in it; -1 when none is. */
  lemma {:induction false} LastOfIsLast(parts: seq<String>, n: nat, c: PartCategory)
    requires n <= |parts|
    ensures var k := LastOf(parts, n, c);
      (k >= 0 ==> CategoryOf(parts[k]) == c) && forall j :: k < j < n ==> CategoryOf(parts[j]) != c
  {
    if n > 0 && CategoryOf(parts[n - 1]) != c {
      LastOfIsLast(parts, n - 1, c);
    }
  }

  // ---------------------------------------------------------------------
  // Reading the parts
  // ---------------------------------------------------------------------

  /** The season of a competition part, as parseCompetitionData computes it: a year above 100 is kept, others have 2000 added. */
  function SeasonOfPart(part: String): (r: Result<Season>)
    ensures r.Ok?
    ensures !Found(SeasonPattern, part) ==> r.value == Season(Millennia, Millennia)
    ensures Found(SeasonPattern, part) ==>
      var sp := Find(SeasonPattern, part, 0).value;
      var g := part[sp.start..sp.end];
      IsSeasonGroup(g)
      && r.value == Season(CenturyOf(DigitsValue(g[..|g| - 3])), CenturyOf(DigitsValue(g[|g| - 2..])))
  {
    match Find(SeasonPattern, part, 0)
    case None => Ok(Season(Millennia, Millennia))
    case Some(sp) =>
      SeasonMatchAt(part);
      SeasonOfGroup(part[sp.start..sp.end])
  }

  /** Where the leftmost season match lies. */
  lemma SeasonMatchAt(part: String)
    requires Found(SeasonPattern, part)
    ensures var sp := Find(SeasonPattern, part, 0).value;
      var n := RunLength(IsDigit, part, sp.start);
      var g := part[sp.start..sp.end];
      SeasonAt(part, sp.start) && sp.end == sp.start + n + 3
      && IsSeasonGroup(g) && g[..n] == part[sp.start..sp.start + n] && g[n + 1..] == part[sp.start + n + 1..sp.end]
  {
    var sp := Find(SeasonPattern, part, 0).value;
    SeasonMatchEnd(part, sp.start);
    SeasonAtText(part, sp.start);
  }

  /** The text of a season match is a season text. */
  lemma SeasonAtText(part: String, i: nat)
    requires SeasonAt(part, i)
    ensures var n := RunLength(IsDigit, part, i);
      var g := part[i..i + n + 3];
      IsSeasonGroup(g) && g[..n] == part[i..i + n] && g[n + 1..] == part[i + n + 1..i + n + 3]
  {
    var n := RunLength(IsDigit, part, i);
    var g := part[i..i + n + 3];
    assert g[..n] == part[i..i + n];
    assert g[n + 1..] == part[i + n + 1..i + n + 3];
    assert AllDigits(g[..n]) by {
      forall k | 0 <= k < n ensures IsDigit(g[..n][k]) {
        assert g[..n][k] == part[i + k];
      }
    }
    assert AllDigits(g[n + 1..]) by {
      assert g[n + 1..][0] == part[i + n + 1] && g[n + 1..][1] == part[i + n + 2];
    }
  }

  /** A season text "y/yy" as parseCompetitionData reads it: split on "/", each side parsed. */
  function SeasonOfGroup(group: String): (r: Result<Season>)
    requires IsSeasonGroup(group)
    ensures r.Ok?
    ensures r.value == Season(CenturyOf(DigitsValue(group[..|group| - 3])), CenturyOf(DigitsValue(group[|group| - 2..])))
  {
    SeasonGroupSplits(group);
    var seasonSplit := Split(Literal("/"), group);
    var sy := ParseIntChecked(seasonSplit[0]);
    var ey := ParseIntChecked(seasonSplit[1]);
    if sy.Fail? || ey.Fail? then Fail(NumberFormat)
    else Ok(Season(CenturyOf(sy.value), CenturyOf(ey.value)))
  }

  /** The text of a season match: two to four digits, a slash, two digits. */
  predicate IsSeasonGroup(g: String)
  {
    5 <= |g| <= 7 && g[|g| - 3] == '/' && AllDigits(g[..|g| - 3]) && AllDigits(g[|g| - 2..])
  }

  /** A season year as parseCompetitionData reads it: above 100 it is kept, otherwise 2000 is added. */
  function CenturyOf(year: int): (y: int)
    ensures year > 100 ==> y == year
    ensures 0 <= year <= 100 ==> y == Millennia + year
  {
    if year > 100 then year else Wrap32(Millennia + year)
  }

  /** A season text splits on its slash into its two digit runs, each of which parses. */
  lemma SeasonGroupSplits(g: String)
    requires IsSeasonGroup(g)
    ensures var x := g[..|g| - 3];
      var y := g[|g| - 2..];
      Split(Literal("/"), g) == [x, y]
      && ParseInt(x) == Some(DigitsValue(x)) && ParseInt(y) == Some(DigitsValue(y))
      && DigitsValue(x) < 10000 && DigitsValue(y) < 100
  {
    var x := g[..|g| - 3];
    var y := g[|g| - 2..];
    assert g == x + ['/'] + y;
    assert '/' !in x by {
      forall k | 0 <= k < |x| ensures x[k] != '/' { assert IsDigit(x[k]); }
    }
    assert '/' !in y by {
      forall k | 0 <= k < |y| ensures y[k] != '/' { assert IsDigit(y[k]); }
    }
    SplitAtOnly('/', x, y);
    ParseShortDigits(x);
    ParseShortDigits(y);
    DigitsValueBelow(x);
    DigitsValueBelow(y);
    assert Pow10(|x|) <= 10000 by {
      assert Pow10(2) == 100 && Pow10(3) == 1000 && Pow10(4) == 10000;
    }
  }

  /**
   * The competition of a competition part: the text before the season,
   * located with indexOf on the season text. The first occurrence of that text
   * is the season match itself, so the competition is exactly the text in
   * front of the leftmost season; a competition part always has one.
   */
  function CompetitionOfPart(part: String): (r: Option<Competition>)
    ensures r.None? <==> !Found(SeasonPattern, part)
    ensures r.Some? ==> r.value.name == part[..Find(SeasonPattern, part, 0).value.start]
    ensures IsCompSeasonPart(part) ==> r.Some?
  {
    CompSeasonHasSeason(part);
    match Find(SeasonPattern, part, 0)
    case None => None
    case Some(sp) =>
      var group := part[sp.start..sp.end];
      SeasonFirstOccurrence(part, sp.start, sp.end);
      Some(Competition(part[..IndexOfFrom(part, group, 0).value]))
  }

  /** A competition part holds a season. */
  lemma CompSeasonHasSeason(part: String)
    ensures IsCompSeasonPart(part) ==> Found(SeasonPattern, part)
  {
    CompSeasonFromSeason(part, 0);
  }

  lemma {:induction false} CompSeasonFromSeason(part: String, j: nat)
    ensures CompSeasonFrom(part, j) ==> Found(SeasonPattern, part)
    decreases |part| - j
  {
    if CompSeasonFrom(part, j) {
      if WordOrSpace(part[j]) && part[j + 1] == ' ' && SeasonAt(part, j + 2) {
        SeasonMatchEnd(part, j + 2);
        FoundIff(SeasonPattern, part);
      } else {
        CompSeasonFromSeason(part, j + 1);
      }
    }
  }

  /** The leftmost season match is also the first occurrence of its text. */
  lemma SeasonFirstOccurrence(part: String, start: nat, end: nat)
    requires Find(SeasonPattern, part, 0) == Some(Span(start, end))
    ensures IndexOfFrom(part, part[start..end], 0) == Some(start)
  {
    var g := part[start..end];
    SeasonMatchAt(part);
    forall p | 0 <= p < start
      ensures !OccursAt(part, g, p)
    {
      SeasonMatchEnd(part, p);
      SeasonTextIsMatch(part, g, p);
    }
    var r := IndexOfFrom(part, g, 0);
    assert OccursAt(part, g, start);
    assert r.Some? && r.value == start;
  }

  /** Wherever a season text occurs, the season pattern matches. */
  lemma SeasonTextIsMatch(part: String, g: String, p: nat)
    requires IsSeasonGroup(g)
    ensures OccursAt(part, g, p) ==> SeasonAt(part, p)
  {
    if !OccursAt(part, g, p) { return; }
    var n := |g| - 3;
    assert part[p..p + |g|] == g;
    forall k | p <= k < p + n ensures IsDigit(part[k]) {
      assert part[k] == g[k - p];
      assert g[..n][k - p] == g[k - p];
    }
    assert part[p + n] == g[n] == '/';
    RunLengthExact(IsDigit, part, p, n);
    assert part[p + n + 1] == g[n + 1] == g[|g| - 2..][0];
    assert part[p + n + 2] == g[n + 2] == g[|g| - 2..][1];
  }

  /** The fixture a competition part names: "J" and two digits give ("Matchday", the number). */
  function MatchdayOfPart(part: String): (r: Option<Fixture>)
    ensures r.None? <==> !Found(MatchdayPattern, part)
    ensures r.Some? ==>
      var sp := Find(MatchdayPattern, part, 0).value;
      part[sp.start] == 'J' && r.value == NumberedFixture("Matchday", DigitsValue(part[sp.start + 1..sp.end]))
      && DigitsValue(part[sp.start + 1..sp.end]) < 100
  {
    match Find(MatchdayPattern, part, 0)
    case None => None
    case Some(sp) =>
      var digits := part[sp.start..sp.end][1..];
      assert digits == part[sp.start + 1..sp.end];
      assert AllDigits(digits);
      ParseShortDigits(digits);
      DigitsValueBelow(digits);
      assert Pow10(2) == 100;
      Some(NumberedFixture("Matchday", ParseInt(digits).value))
  }

  /**
   * The teams of a teams part: the part is split on ` [Vv][Ss].? `; the first
   * piece is the home team and the second the away team. A split with one
   * piece sets the home team and then fails on the away team, whose exception
   * is swallowed; a split with none sets neither. The names are not trimmed.
   */
  function TeamsOfPart(part: String): (r: (Option<Team>, Option<Team>))
    ensures r.0.Some? <==> |Split(VersusPattern, part)| >= 1
    ensures r.1.Some? <==> |Split(VersusPattern, part)| >= 2
    ensures r.0.Some? ==> r.0.value.name == Split(VersusPattern, part)[0]
    ensures r.1.Some? ==> r.1.value.name == Split(VersusPattern, part)[1]
    ensures !Found(VersusPattern, part) ==> r == (Some(Team(part)), None)
  {
    var teams := Split(VersusPattern, part);
    (if |teams| >= 1 then Some(Team(teams[0])) else None,
     if |teams| >= 2 then Some(Team(teams[1])) else None)
  }

  /**
   * parseFixtureData as written: the part is split on `\d{2}`, and when that
   * gives more than one piece the number is parsed from the second piece, the
   * text after the first two-digit run, not from the run itself. A failed
   * parse is swallowed and the earlier fixture kept.
   */
  function FixtureOfPartAsWritten(part: String, current: Fixture): (r: Fixture)
    ensures |Split(TwoDigits, part)| <= 1 ==> r == TitledFixture(part)
    ensures |Split(TwoDigits, part)| > 1 && ParseInt(Split(TwoDigits, part)[1]).None? ==> r == current
    ensures |Split(TwoDigits, part)| > 1 && ParseInt(Split(TwoDigits, part)[1]).Some? ==>
      r == NumberedFixture(Split(TwoDigits, part)[0], ParseInt(Split(TwoDigits, part)[1]).value)
  {
    var split := Split(TwoDigits, part);
    if |split| > 1 then
      match ParseInt(split[1])
      case Some(n) => NumberedFixture(split[0], n)
      case None => current
    else TitledFixture(part)
  }

  /**
   * As written, "Matchday 12 leg" keeps the earlier fixture: the text parsed
   * as the number is " leg".
   */
  lemma FixtureOfPartAsWrittenLosesNumber(current: Fixture)
    ensures FixtureOfPartAsWritten("Matchday 12 leg", current) == current
  {
    SplitMatchdayTwelveLeg();
  }

  /** "Matchday 12 leg" has its two-digit run at 9 and splits into "Matchday " and " leg". */
  lemma SplitMatchdayTwelveLeg()
    ensures Find(TwoDigits, "Matchday 12 leg", 0) == Some(Span(9, 11))
    ensures Split(TwoDigits, "Matchday 12 leg") == ["Matchday ", " leg"]
  {
    SplitAtTwoDigits("Matchday ", "12", " leg");
    assert "Matchday " + "12" + " leg" == "Matchday 12 leg";
  }

  /** A text with one two-digit run and no other digits splits into the text before and after it. */
  lemma SplitAtTwoDigits(x: String, d: String, y: String)
    requires forall k :: 0 <= k < |x| ==> !IsDigit(x[k])
    requires |d| == 2 && AllDigits(d)
    requires |y| > 0 && forall k :: 0 <= k < |y| ==> !IsDigit(y[k])
    ensures Find(TwoDigits, x + d + y, 0) == Some(Span(|x|, |x| + 2))
    ensures Split(TwoDigits, x + d + y) == [x, y]
  {
    var s := x + d + y;
    FindTwoDigitsAt(x, d + y);
    assert s == x + (d + y);
    NoTwoDigitsIn(x + d, y);
    assert s == (x + d) + y;
    assert Pieces(TwoDigits, s, |x| + 2) == [y];
    assert s[..|x|] == x;
    assert Pieces(TwoDigits, s, 0) == [x, y];
  }

  /** Behind a text without digits, the first two-digit run is the one that starts the rest. */
  lemma FindTwoDigitsAt(x: String, t: String)
    requires forall k :: 0 <= k < |x| ==> !IsDigit(x[k])
    requires |t| >= 2 && IsDigit(t[0]) && IsDigit(t[1])
    ensures Find(TwoDigits, x + t, 0) == Some(Span(|x|, |x| + 2))
  {
    var s := x + t;
    forall k | 0 <= k < |x| ensures MatchEnd(TwoDigits, s, k).None? {
      assert s[k] == x[k];
    }
    FindSkips(TwoDigits, s, 0, |x|);
    assert s[|x|] == t[0] && s[|x| + 1] == t[1];
    assert MatchEnd(TwoDigits, s, |x|) == Some(|x| + 2);
  }

  /** A text without digits holds no two-digit run. */
  lemma NoTwoDigitsIn(w: String, y: String)
    requires forall k :: 0 <= k < |y| ==> !IsDigit(y[k])
    ensures Find(TwoDigits, w + y, |w|).None?
  {
    var s := w + y;
    forall k | |w| <= k < |s| ensures MatchEnd(TwoDigits, s, k).None? {
      assert s[k] == y[k - |w|];
    }
    FindSkips(TwoDigits, s, |w|, |s|);
  }

  /**
   * parseFixtureData as intended: when the split shows a two-digit run with
   * text after it, the fixture is the text before the run and the run's
   * number; otherwise the whole part is the fixture title.
   */
  function FixtureOfPart(part: String): (r: Fixture)
    ensures |Split(TwoDigits, part)| <= 1 ==> r == TitledFixture(part)
    ensures |Split(TwoDigits, part)| > 1 ==>
      var sp := Find(TwoDigits, part, 0).value;
      r.title == Some(part[..sp.start]) && r.title == Some(Split(TwoDigits, part)[0])
      && r.number == Some(DigitsValue(part[sp.start..sp.end])) && 0 <= r.number.value < 100
  {
    var split := Split(TwoDigits, part);
    if |split| > 1 then
      var sp := Find(TwoDigits, part, 0).value;
      var digits := part[sp.start..sp.end];
      assert AllDigits(digits);
      ParseShortDigits(digits);
      DigitsValueBelow(digits);
      assert Pow10(2) == 100;
      assert Pieces(TwoDigits, part, 0)[0] == part[..sp.start];
      NumberedFixture(split[0], ParseInt(digits).value)
    else TitledFixture(part)
  }

  /** The corrected reading gives "Matchday 12 leg" its number. */
  lemma FixtureOfPartKeepsNumber()
    ensures FixtureOfPart("Matchday 12 leg") == NumberedFixture("Matchday ", 12)
  {
    var s := "Matchday 12 leg";
    SplitMatchdayTwelveLeg();
    assert s[9..11] == "12";
    assert DigitsValue("12") == 12 by { assert "12"[..1] == "1"; }
    assert s[..9] == "Matchday ";
  }

  // ---------------------------------------------------------------------
  // The parser
  // ---------------------------------------------------------------------

  function TitleParts(title: String): seq<String>
  {
    Split(Literal(TitleSplitter), title)
  }

  /**
   * The event the parser yields for a title, read from the classified parts:
   * the specification the parser object is proved against.
   */
  function EventOf(title: String, date: DateTime, currentYear: int): (r: Result<Event>)
    ensures r.Fail? <==> |TitleParts(title)| == 0
    ensures r.Ok? ==>
      var parts := TitleParts(title);
      var c := LastOf(parts, |parts|, CompSeasonPart);
      var t := LastOf(parts, |parts|, TeamsPart);
      (c == -1 ==> r.value.competition.name == parts[0]
                   && r.value.season == Season(currentYear, Wrap32(currentYear + 1)))
      && (c != -1 ==> r.value.season == SeasonOfPart(parts[c]).value)
      && (r.value.Match? <==> t != -1 && TeamsOfPart(parts[t]).1.Some?)
      && (r.value.HighlightShow? ==> r.value.title == Join(parts, TitleSplitter))
      && r.value.date == date
  {
    var parts := TitleParts(title);
    var c := LastOf(parts, |parts|, CompSeasonPart);
    var t := LastOf(parts, |parts|, TeamsPart);
    var f := LastOf(parts, |parts|, FixturePart);
    LastOfIsLast(parts, |parts|, CompSeasonPart);
    if c == -1 && |parts| == 0 then Fail(IndexOutOfBounds)
    else
      var season := if c == -1 then Season(currentYear, Wrap32(currentYear + 1)) else SeasonOfPart(parts[c]).value;
      var fixture0 := if c != -1 && MatchdayOfPart(parts[c]).Some? then MatchdayOfPart(parts[c]).value else EmptyFixture;
      var competition := if c == -1 then Competition(parts[0]) else CompetitionOfPart(parts[c]).value;
      var teams := if t == -1 then (None, None) else TeamsOfPart(parts[t]);
      var fixture := if f == -1 then fixture0 else FixtureOfPartAsWritten(parts[f], fixture0);
      if teams.0.Some? && teams.1.Some? then
        Ok(Match(competition, season, fixture, date, teams.0.value, teams.1.value))
      else
        Ok(HighlightShow(competition, season, fixture, Join(parts, TitleSplitter), date))
  }

  /**
   * The competition, fixture and teams of the event: the competition part's
   * name (or the first part), the fixture of the fixture part as written (a
   * part whose trailing text is no number keeps the competition part's "Jnn"
   * fixture), and, for a match, the teams of the teams part.
   */
  lemma EventOfFields(title: String, date: DateTime, currentYear: int)
    requires EventOf(title, date, currentYear).Ok?
    ensures var parts := TitleParts(title);
      var e := EventOf(title, date, currentYear).value;
      var c := LastOf(parts, |parts|, CompSeasonPart);
      var t := LastOf(parts, |parts|, TeamsPart);
      var f := LastOf(parts, |parts|, FixturePart);
      var fixture0 := if c != -1 && MatchdayOfPart(parts[c]).Some? then MatchdayOfPart(parts[c]).value else EmptyFixture;
      && (c == -1 ==> e.competition == Competition(parts[0]))
      && (c != -1 ==> Some(e.competition) == CompetitionOfPart(parts[c]))
      && (f == -1 ==> e.fixture == fixture0)
      && (f != -1 ==> e.fixture == FixtureOfPartAsWritten(parts[f], fixture0))
      && (e.Match? ==> t != -1 && TeamsOfPart(parts[t]) == (Some(e.homeTeam), Some(e.awayTeam)))
  {
    var parts := TitleParts(title);
    LastOfIsLast(parts, |parts|, CompSeasonPart);
  }

  /**
   * A fixture part overrides the fixture a competition part's "Jnn" gave only
   * when the text after its first two-digit run parses as a number, or when it
   * holds no such run with text after it; otherwise the earlier fixture stays.
   */
  lemma FixturePartOverrides(title: String, date: DateTime, currentYear: int)
    requires EventOf(title, date, currentYear).Ok?
    requires LastOf(TitleParts(title), |TitleParts(title)|, FixturePart) != -1
    ensures var parts := TitleParts(title);
      var part := parts[LastOf(parts, |parts|, FixturePart)];
      var split := Split(TwoDigits, part);
      var e := EventOf(title, date, currentYear).value;
      && (|split| <= 1 ==> e.fixture == TitledFixture(part))
      && (|split| > 1 && ParseInt(split[1]).Some? ==> e.fixture == NumberedFixture(split[0], ParseInt(split[1]).value))
      && (|split| > 1 && ParseInt(split[1]).None? ==>
            var c := LastOf(parts, |parts|, CompSeasonPart);
            e.fixture == (if c != -1 && MatchdayOfPart(parts[c]).Some? then MatchdayOfPart(parts[c]).value else EmptyFixture))
  {
    EventOfFields(title, date, currentYear);
  }

  class ZKFEventParser {
    var compIndex: int
    var teamIndex: int
    var fixtureIndex: int
    var titleParts: seq<String>
    var competition: Option<Competition>
    var homeTeam: Option<Team>
    var awayTeam: Option<Team>
    var season: Season
    var fixture: Fixture
    var date: DateTime

    /** The field defaults: no indices, the current season, an empty fixture. */
    constructor Init(date: DateTime, currentYear: int)
      ensures compIndex == -1 && teamIndex == -1 && fixtureIndex == -1
      ensures titleParts == []
      ensures competition.None? && homeTeam.None? && awayTeam.None?
      ensures season == Season(currentYear, Wrap32(currentYear + 1)) && fixture == EmptyFixture
      ensures this.date == date
    {
      compIndex := -1;
      teamIndex := -1;
      fixtureIndex := -1;
      titleParts := [];
      competition := None;
      homeTeam := None;
      awayTeam := None;
      season := Season(currentYear, Wrap32(currentYear + 1));
      fixture := EmptyFixture;
      this.date := date;
    }

    /** parsePartIndices: each index ends at the last part of its category. */
    method ParsePartIndices()
      modifies this
      requires compIndex == -1 && teamIndex == -1 && fixtureIndex == -1
      ensures compIndex == LastOf(titleParts, |titleParts|, CompSeasonPart)
      ensures teamIndex == LastOf(titleParts, |titleParts|, TeamsPart)
      ensures fixtureIndex == LastOf(titleParts, |titleParts|, FixturePart)
      ensures titleParts == old(titleParts) && competition == old(competition)
      ensures homeTeam == old(homeTeam) && awayTeam == old(awayTeam)
      ensures season == old(season) && fixture == old(fixture) && date == old(date)
    {
      var parts := titleParts;
      var comp, team, fix := -1, -1, -1;
      var i := 0;
      while i < |parts|
        invariant 0 <= i <= |parts|
        invariant comp == LastOf(parts, i, CompSeasonPart)
        invariant team == LastOf(parts, i, TeamsPart)
        invariant fix == LastOf(parts, i, FixturePart)
      {
        var category := CategoryOf(parts[i]);
        if category == CompSeasonPart {
          comp := i;
        } else if category == TeamsPart {
          team := i;
        } else if category == FixturePart {
          fix := i;
        }
        i := i + 1;
      }
      compIndex, teamIndex, fixtureIndex := comp, team, fix;
    }

    /**
     * parseCompetitionData: from the competition part, the season, a "Jnn"
     * fixture and the competition (when the part holds a season); without a
     * competition part, the first part is the competition, which throws when
     * there are no parts at all.
     */
    method ParseCompetitionData() returns (ok: bool)
      modifies this
      requires -1 <= compIndex < |titleParts|
      ensures compIndex == old(compIndex) && teamIndex == old(teamIndex) && fixtureIndex == old(fixtureIndex)
      ensures titleParts == old(titleParts) && homeTeam == old(homeTeam) && awayTeam == old(awayTeam)
      ensures date == old(date)
      ensures ok <==> compIndex != -1 || |titleParts| > 0
      ensures ok && compIndex == -1 ==>
        competition == Some(Competition(titleParts[0])) && season == old(season) && fixture == old(fixture)
      ensures ok && compIndex != -1 ==>
        var part := titleParts[compIndex];
        season == SeasonOfPart(part).value
        && fixture == (if MatchdayOfPart(part).Some? then MatchdayOfPart(part).value else old(fixture))
        && competition == (if CompetitionOfPart(part).Some? then CompetitionOfPart(part) else old(competition))
    {
      if compIndex != -1 {
        ParseCompetitionPart();
        ok := true;
      } else if |titleParts| == 0 {
        ok := false;
      } else {
        competition := Some(Competition(titleParts[0]));
        ok := true;
      }
    }

    /** The competition part's season, its "Jnn" fixture if any, and its competition if it holds a season. */
    method ParseCompetitionPart()
      modifies this
      requires 0 <= compIndex < |titleParts|
      ensures compIndex == old(compIndex) && teamIndex == old(teamIndex) && fixtureIndex == old(fixtureIndex)
      ensures titleParts == old(titleParts) && homeTeam == old(homeTeam) && awayTeam == old(awayTeam)
      ensures date == old(date)
      ensures var part := titleParts[compIndex];
        season == SeasonOfPart(part).value
        && fixture == (if MatchdayOfPart(part).Some? then MatchdayOfPart(part).value else old(fixture))
        && competition == (if CompetitionOfPart(part).Some? then CompetitionOfPart(part) else old(competition))
    {
      ParseSeason();
      ParseTitleFixture();
      ParseCompetitionName();
    }

    /** The season block of parseCompetitionData: the season of the competition part. */
    method ParseSeason()
      modifies this
      requires 0 <= compIndex < |titleParts|
      ensures compIndex == old(compIndex) && teamIndex == old(teamIndex) && fixtureIndex == old(fixtureIndex)
      ensures titleParts == old(titleParts) && homeTeam == old(homeTeam) && awayTeam == old(awayTeam)
      ensures date == old(date)
      ensures fixture == old(fixture) && competition == old(competition)
      ensures season == SeasonOfPart(titleParts[compIndex]).value
    {
      season := SeasonOfPart(titleParts[compIndex]).value;
    }

    /** The fixture block of parseCompetitionData: "J" and two digits in the competition part name the matchday. */
    method ParseTitleFixture()
      modifies this
      requires 0 <= compIndex < |titleParts|
      ensures compIndex == old(compIndex) && teamIndex == old(teamIndex) && fixtureIndex == old(fixtureIndex)
      ensures titleParts == old(titleParts) && homeTeam == old(homeTeam) && awayTeam == old(awayTeam)
      ensures date == old(date)
      ensures season == old(season) && competition == old(competition)
      ensures var matchday := MatchdayOfPart(titleParts[compIndex]);
        fixture == (if matchday.Some? then matchday.value else old(fixture))
    {
      var matchday := MatchdayOfPart(titleParts[compIndex]);
      if matchday.Some? {
        fixture := matchday.value;
      }
    }

    /** The competition block of parseCompetitionData: the text before the season, when there is one. */
    method ParseCompetitionName()
      modifies this
      requires 0 <= compIndex < |titleParts|
      ensures compIndex == old(compIndex) && teamIndex == old(teamIndex) && fixtureIndex == old(fixtureIndex)
      ensures titleParts == old(titleParts) && homeTeam == old(homeTeam) && awayTeam == old(awayTeam)
      ensures date == old(date)
      ensures season == old(season) && fixture == old(fixture)
      ensures var name := CompetitionOfPart(titleParts[compIndex]);
        competition == (if name.Some? then name else old(competition))
    {
      var name := CompetitionOfPart(titleParts[compIndex]);
      if name.Some? {
        competition := name;
      }
    }

    /** parseTeamData: the teams of the teams part, if there is one. */
    method ParseTeamData()
      modifies this
      requires -1 <= teamIndex < |titleParts|
      requires homeTeam.None? && awayTeam.None?
      ensures compIndex == old(compIndex) && teamIndex == old(teamIndex) && fixtureIndex == old(fixtureIndex)
      ensures titleParts == old(titleParts) && competition == old(competition)
      ensures teamIndex != -1 ==> (homeTeam, awayTeam) == TeamsOfPart(titleParts[teamIndex])
      ensures teamIndex == -1 ==> homeTeam.None? && awayTeam.None?
      ensures season == old(season) && fixture == old(fixture) && date == old(date)
    {
      if teamIndex != -1 {
        var teams := Split(VersusPattern, titleParts[teamIndex]);
        if |teams| >= 1 {
          homeTeam := Some(Team(teams[0]));
          if |teams| >= 2 {
            awayTeam := Some(Team(teams[1]));
          }
        }
      }
    }

    /**
     * parseFixtureData: the fixture part's fixture, read as written, replaces
     * the earlier one; a part whose number does not parse keeps it.
     */
    method ParseFixtureData()
      modifies this
      requires -1 <= fixtureIndex < |titleParts|
      ensures compIndex == old(compIndex) && teamIndex == old(teamIndex) && fixtureIndex == old(fixtureIndex)
      ensures titleParts == old(titleParts) && competition == old(competition)
      ensures fixtureIndex != -1 ==> fixture == FixtureOfPartAsWritten(titleParts[fixtureIndex], old(fixture))
      ensures fixtureIndex == -1 ==> fixture == old(fixture)
      ensures homeTeam == old(homeTeam) && awayTeam == old(awayTeam)
      ensures season == old(season) && date == old(date)
    {
      if fixtureIndex != -1 {
        fixture := FixtureOfPartAsWritten(titleParts[fixtureIndex], fixture);
      }
    }

    /** getEvent: a Match when both teams were read, otherwise a HighlightShow titled with the rejoined title. */
    function GetEvent(): (e: Event)
      reads this
      requires competition.Some?
      ensures e.Match? <==> homeTeam.Some? && awayTeam.Some?
      ensures e.HighlightShow? ==> e.title == Join(titleParts, TitleSplitter)
      ensures e.competition == competition.value && e.season == season && e.fixture == fixture && e.date == date
    {
      if homeTeam.Some? && awayTeam.Some? then
        Match(competition.value, season, fixture, date, homeTeam.value, awayTeam.value)
      else
        HighlightShow(competition.value, season, fixture, Join(titleParts, TitleSplitter), date)
    }
  }

  /**
   * The constructor: the defaults, then the title split, the part indices and
   * the three readers in turn. The parser it yields gives the event EventOf
   * describes.
   */
  method NewZKFEventParser(title: String, date: DateTime, currentYear: int) returns (r: Result<ZKFEventParser>)
    ensures r.Fail? <==> EventOf(title, date, currentYear).Fail?
    ensures r.Fail? ==> r.error == IndexOutOfBounds
    ensures r.Ok? ==>
      fresh(r.value) && r.value.competition.Some? && r.value.GetEvent() == EventOf(title, date, currentYear).value
  {
    var p := new ZKFEventParser.Init(date, currentYear);
    p.titleParts := TitleParts(title);
    p.ParsePartIndices();
    LastOfIsLast(p.titleParts, |p.titleParts|, CompSeasonPart);
    var ok := p.ParseCompetitionData();
    if !ok {
      return Fail(IndexOutOfBounds);
    }
    p.ParseTeamData();
    p.ParseFixtureData();
    return Ok(p);
  }
}
