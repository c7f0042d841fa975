/**
 * Choosing what to stream
 * (src/main/java/self/me/matchday/api/service/video/VideoFileSelectorService.java).
 *
 * getBestFileSource sorts an event's file sources (a stable List.sort) by
 * resolution, in declaration order, and then by whether the source's primary
 * language is spoken in the competition's country, the home team's country
 * and the away team's country, and takes the first. getPlaylistFiles sorts a
 * source's packs by whether an enabled plugin accepts the first part's URL
 * and takes the first.
 *
 * The head of a stable sort is the first element, in list order, whose sort
 * key is least; that is how both are modelled. The comparators are modelled
 * as written and shown to order by a numeric key. Locale.getDisplayLanguage
 * is read through the country's list of display languages.
 */
module VideoFileSelectorService {
  import opened Outcome
  import opened JavaString
  import opened Regex
  import opened EventFileSource
  import VFS = VideoFileSource
  import Plugins = FileServerPluginService

  // ---------------------------------------------------------------------
  // getSourcePrimaryLanguage
  // ---------------------------------------------------------------------

  /** The pattern "\\s". */
  const SpaceClass: Matcher := CharClass(IsSpace)

  /** The text " " searched for with contains. */
  const Space: String := " "

  /**
   * getSourcePrimaryLanguage: with a space in the languages, the first
   * element of their split on \s (none left when the text is only
   * whitespace); without one, the trimmed text. Null languages throw.
   */
  function PrimaryLanguage(languages: Option<String>): (r: Result<String>)
    ensures languages.None? ==> r == Fail(NullPointer)
    ensures r.Fail? ==> r.error == NullPointer || r.error == IndexOutOfBounds
  {
    if languages.None? then Fail(NullPointer)
    else if Contains(languages.value, Space) then
      var parts := Split(SpaceClass, languages.value);
      if |parts| == 0 then Fail(IndexOutOfBounds) else Ok(parts[0])
    else Ok(Trim(languages.value))
  }

  /** The space class matches one character exactly where that character is whitespace. */
  lemma SpaceMatchAt(s: String, i: nat)
    requires i < |s|
    ensures MatchEnd(SpaceClass, s, i) == if IsSpace(s[i]) then Some(i + 1) else None
  {
  }

  /** Dropping trailing empty strings keeps a non-empty first element. */
  lemma {:induction false} StripKeepsHead(parts: seq<String>)
    requires |parts| > 0 && parts[0] != []
    ensures |StripTrailingEmpty(parts)| > 0 && StripTrailingEmpty(parts)[0] == parts[0]
  {
    if parts[|parts| - 1] == [] {
      StripKeepsHead(parts[..|parts| - 1]);
    }
  }

  /** A list of empty strings strips to nothing. */
  lemma {:induction false} StripAllEmpty(parts: seq<String>)
    requires forall k :: 0 <= k < |parts| ==> parts[k] == []
    ensures StripTrailingEmpty(parts) == []
  {
    if |parts| > 0 {
      StripAllEmpty(parts[..|parts| - 1]);
    }
  }

  /** In a text made only of whitespace every piece between matches is empty. */
  lemma {:induction false} SpacePiecesEmpty(s: String, pos: nat)
    requires pos <= |s|
    requires forall k :: 0 <= k < |s| ==> IsSpace(s[k])
    ensures forall k :: 0 <= k < |Pieces(SpaceClass, s, pos)| ==> Pieces(SpaceClass, s, pos)[k] == []
    decreases |s| - pos
  {
    if pos < |s| {
      SpaceMatchAt(s, pos);
      assert Find(SpaceClass, s, pos) == Some(Span(pos, pos + 1));
      SpacePiecesEmpty(s, pos + 1);
    }
  }

  /** A space is somewhere in a text that contains " ". */
  lemma SpaceAt(s: String) returns (k: nat)
    requires Contains(s, Space)
    ensures k < |s| && s[k] == ' '
  {
    ContainsIff(s, Space);
    k :| OccursAt(s, Space, k);
    assert s[k..k + 1][0] == s[k];
  }

  /**
   * With a space in a text that does not start with whitespace, the primary
   * language is the text's first token: a non-empty prefix free of
   * whitespace, ended by a whitespace character.
   */
  lemma PrimaryIsFirstToken(s: String)
    requires Contains(s, Space) && |s| > 0 && !IsSpace(s[0])
    ensures var r := PrimaryLanguage(Some(s));
      && r.Ok? && 0 < |r.value| < |s| && r.value == s[..|r.value|] && IsSpace(s[|r.value|])
      && forall k :: 0 <= k < |r.value| ==> !IsSpace(s[k])
  {
    var k := SpaceAt(s);
    SpaceMatchAt(s, k);
    FoundIff(SpaceClass, s);
    var sp := Find(SpaceClass, s, 0).value;
    SpaceMatchAt(s, 0);
    SpaceMatchAt(s, sp.start);
    forall j | 0 <= j < sp.start ensures !IsSpace(s[j]) {
      SpaceMatchAt(s, j);
    }
    var parts := Pieces(SpaceClass, s, 0);
    assert parts[0] == s[..sp.start];
    StripKeepsHead(parts);
  }

  /** A text with a space and nothing but whitespace has no primary language: the split is empty. */
  lemma PrimaryOfBlankThrows(s: String)
    requires Contains(s, Space)
    requires forall k :: 0 <= k < |s| ==> IsSpace(s[k])
    ensures PrimaryLanguage(Some(s)) == Fail(IndexOutOfBounds)
  {
    var k := SpaceAt(s);
    SpaceMatchAt(s, k);
    FoundIff(SpaceClass, s);
    SpacePiecesEmpty(s, 0);
    StripAllEmpty(Pieces(SpaceClass, s, 0));
  }

  /** A text with a space that starts with whitespace has the empty primary language, or none. */
  lemma PrimaryOfLeadingSpace(s: String)
    requires Contains(s, Space) && |s| > 0 && IsSpace(s[0])
    ensures PrimaryLanguage(Some(s)) == Ok([]) || PrimaryLanguage(Some(s)) == Fail(IndexOutOfBounds)
  {
    SpaceMatchAt(s, 0);
    FoundIff(SpaceClass, s);
    assert Find(SpaceClass, s, 0) == Some(Span(0, 1));
    var parts := Pieces(SpaceClass, s, 0);
    assert parts[0] == [];
  }

  // ---------------------------------------------------------------------
  // compareLanguages
  // ---------------------------------------------------------------------

  /** A country, read through the display languages of its locales (None for a null list). */
  datatype Country = Country(localeLanguages: Option<seq<String>>)

  /** The country has at least one locale. */
  predicate HasLocales(country: Option<Country>)
  {
    country.Some? && country.value.localeLanguages.Some? && |country.value.localeLanguages.value| > 0
  }

  /** Some locale of the country has the language as its display language. */
  predicate Speaks(country: Country, language: String)
  {
    country.localeLanguages.Some? && language in country.localeLanguages.value
  }

  /** Boolean.compareTo: false before true. */
  function BoolCompare(x: bool, y: bool): int
  {
    if x == y then 0 else if x then 1 else -1
  }

  /**
   * compareLanguages: 0 without a country or without locales; otherwise the
   * language spoken in the country sorts before the one that is not.
   */
  function CompareLanguages(country: Option<Country>, first: String, second: String): (r: int)
    ensures !HasLocales(country) ==> r == 0
    ensures HasLocales(country) ==>
      && (r < 0 <==> Speaks(country.value, first) && !Speaks(country.value, second))
      && (r > 0 <==> !Speaks(country.value, first) && Speaks(country.value, second))
  {
    if country.None? then 0
    else if country.value.localeLanguages.None? || |country.value.localeLanguages.value| == 0 then 0
    else BoolCompare(Speaks(country.value, second), Speaks(country.value, first))
  }

  /** One bit of the sort key: 1 when the country has locales and does not speak the language. */
  function LanguageBit(country: Option<Country>, language: String): (b: nat)
    ensures b <= 1
  {
    if HasLocales(country) && !Speaks(country.value, language) then 1 else 0
  }

  /** compareLanguages orders two languages as their bits do. */
  lemma CompareLanguagesByBit(country: Option<Country>, first: String, second: String)
    ensures Sign(CompareLanguages(country, first, second)) ==
            Sign(LanguageBit(country, first) - LanguageBit(country, second))
  {
  }

  // ---------------------------------------------------------------------
  // getBestFileSource
  // ---------------------------------------------------------------------

  /** A competition or a team, as far as the choice reads it: its country, which may be null. */
  datatype Party = Party(country: Option<Country>)

  /** A Match's home and away teams, either of which may be null. */
  datatype MatchTeams = MatchTeams(home: Option<Party>, away: Option<Party>)

  /**
   * What the selection reads of an event: its competition (null allowed),
   * its teams when the event is a Match, and the file sources.
   */
  datatype EventView = EventView(competition: Option<Party>, teams: Option<MatchTeams>,
                                 fileSources: seq<VFS.VideoFileSource>)

  /** The competition's country; None for a null competition or country. */
  function CompetitionCountry(ev: EventView): Option<Country>
  {
    if ev.competition.Some? then ev.competition.value.country else None
  }

  /** The home team's country; None when the event is no Match or a team or country is null. */
  function HomeCountry(ev: EventView): Option<Country>
  {
    if ev.teams.Some? && ev.teams.value.home.Some? then ev.teams.value.home.value.country else None
  }

  /** The away team's country; None when the event is no Match or a team or country is null. */
  function AwayCountry(ev: EventView): Option<Country>
  {
    if ev.teams.Some? && ev.teams.value.away.Some? then ev.teams.value.away.value.country else None
  }

  /**
   * The comparator as written, on two sources whose resolutions are set; pa
   * and pb are their primary languages. Resolution first (Enum.compareTo,
   * the ordinal difference); on a tie, competition language, which
   * dereferences the competition; on a further tie and for a Match only,
   * home then away team language, each dereferencing its team. A null
   * dereferenced there throws NullPointerException.
   */
  function CompareSources(ev: EventView, a: VFS.VideoFileSource, pa: String, b: VFS.VideoFileSource, pb: String): (r: Result<int>)
    requires a.resolution.Some? && b.resolution.Some?
    ensures r.Fail? ==> r.error == NullPointer
  {
    var byResolution := Ordinal(a.resolution.value) - Ordinal(b.resolution.value);
    if byResolution != 0 then Ok(byResolution)
    else if ev.competition.None? then Fail(NullPointer)
    else
      var byCompetition := CompareLanguages(CompetitionCountry(ev), pa, pb);
      if byCompetition != 0 then Ok(byCompetition)
      else if ev.teams.None? then Ok(0)
      else if ev.teams.value.home.None? then Fail(NullPointer)
      else
        var byHome := CompareLanguages(HomeCountry(ev), pa, pb);
        if byHome != 0 then Ok(byHome)
        else if ev.teams.value.away.None? then Fail(NullPointer)
        else Ok(CompareLanguages(AwayCountry(ev), pa, pb))
  }

  /** The sort key: the resolution's ordinal, then the three language bits. */
  function SourceKey(ev: EventView, resolution: Resolution, language: String): (k: int)
    ensures 8 * Ordinal(resolution) <= k < 8 * Ordinal(resolution) + 8
  {
    8 * Ordinal(resolution) + 4 * LanguageBit(CompetitionCountry(ev), language)
      + 2 * LanguageBit(HomeCountry(ev), language) + LanguageBit(AwayCountry(ev), language)
  }

  /** Where the comparator does not throw, it orders two sources as their keys do. */
  lemma CompareSourcesByKey(ev: EventView, a: VFS.VideoFileSource, pa: String, b: VFS.VideoFileSource, pb: String)
    requires a.resolution.Some? && b.resolution.Some? && CompareSources(ev, a, pa, b, pb).Ok?
    ensures Sign(CompareSources(ev, a, pa, b, pb).value) ==
            Sign(SourceKey(ev, a.resolution.value, pa) - SourceKey(ev, b.resolution.value, pb))
  {
    CompareLanguagesByBit(CompetitionCountry(ev), pa, pb);
    CompareLanguagesByBit(HomeCountry(ev), pa, pb);
    CompareLanguagesByBit(AwayCountry(ev), pa, pb);
  }

  /** The first position, in list order, of a least key: what a stable sort puts first. */
  function FirstLeast(keys: seq<int>): (i: nat)
    requires |keys| > 0
    ensures i < |keys|
    ensures forall j :: 0 <= j < |keys| ==> keys[i] <= keys[j]
    ensures forall j :: 0 <= j < i ==> keys[j] > keys[i]
  {
    if |keys| == 1 then 0
    else
      var b := FirstLeast(keys[..|keys| - 1]);
      assert forall j :: 0 <= j < |keys| - 1 ==> keys[..|keys| - 1][j] == keys[j];
      if keys[|keys| - 1] < keys[b] then |keys| - 1 else b
  }

  /** Another source has the same resolution, so the sort compares the two by language. */
  predicate SharesResolution(srcs: seq<VFS.VideoFileSource>, i: nat)
  {
    i < |srcs| && exists j :: 0 <= j < |srcs| && j != i && srcs[j].resolution == srcs[i].resolution
  }

  /** The first source, from position i on, whose primary language the sort reads and cannot compute. */
  function LanguageFailure(srcs: seq<VFS.VideoFileSource>, i: nat): (r: Option<Exception>)
    decreases |srcs| - i
    ensures r.None? <==> forall k :: i <= k < |srcs| && SharesResolution(srcs, k) ==>
                                       PrimaryLanguage(srcs[k].languages).Ok?
    ensures r.Some? ==> exists k :: i <= k < |srcs| && PrimaryLanguage(srcs[k].languages) == Fail(r.value)
  {
    if i >= |srcs| then None
    else if SharesResolution(srcs, i) && PrimaryLanguage(srcs[i].languages).Fail? then
      Some(PrimaryLanguage(srcs[i].languages).error)
    else LanguageFailure(srcs, i + 1)
  }

  /** The primary language the key reads; never consulted for a source whose resolution is unique. */
  function KeyLanguage(src: VFS.VideoFileSource): String
  {
    match PrimaryLanguage(src.languages)
    case Ok(l) => l
    case Fail(_) => []
  }

  /** The sort keys of the sources, in list order. */
  function SourceKeys(ev: EventView): (keys: seq<int>)
    requires forall k :: 0 <= k < |ev.fileSources| ==> ev.fileSources[k].resolution.Some?
    ensures |keys| == |ev.fileSources|
    ensures forall k :: 0 <= k < |keys| ==>
      keys[k] == SourceKey(ev, ev.fileSources[k].resolution.value, KeyLanguage(ev.fileSources[k]))
  {
    seq(|ev.fileSources|, k requires 0 <= k < |ev.fileSources| =>
      SourceKey(ev, ev.fileSources[k].resolution.value, KeyLanguage(ev.fileSources[k])))
  }

  /**
   * Two different sources whose comparison dereferences a null competition
   * or team. The pairs that throw are those tied on the key up to the first
   * null party the comparator reaches, so they fall into classes of
   * adjacent keys; a correct sort must compare two neighbours of such a
   * class in its output, so it throws exactly when one such pair exists.
   */
  predicate NullDereference(ev: EventView)
    requires forall k :: 0 <= k < |ev.fileSources| ==> ev.fileSources[k].resolution.Some?
  {
    var srcs := ev.fileSources;
    exists i, j :: 0 <= i < |srcs| && 0 <= j < |srcs| && i != j &&
      CompareSources(ev, srcs[i], KeyLanguage(srcs[i]), srcs[j], KeyLanguage(srcs[j])).Fail?
  }

  /**
   * getBestFileSource, as the position chosen: IndexOutOfBounds without
   * sources; a lone source is taken without comparison; with two or more,
   * the sort throws when a resolution is missing, when a source it must
   * compare by language has no primary language, or when a comparison
   * reaches a null competition or team, and otherwise the first source of
   * least key is chosen. When several failures are present, the sort's
   * comparison order decides which exception escapes; the definition picks
   * NullPointerException for a missing resolution, then the first failing
   * language in list order, then NullPointerException for a null party, and
   * the contract states only what holds whatever that order.
   */
  function BestIndex(ev: EventView): (r: Result<nat>)
    ensures r.Ok? ==> r.value < |ev.fileSources|
    ensures |ev.fileSources| == 0 ==> r == Fail(IndexOutOfBounds)
    ensures |ev.fileSources| == 1 ==> r == Ok(0)
    ensures |ev.fileSources| >= 2 ==>
              (r.Fail? <==> (exists k :: 0 <= k < |ev.fileSources| && ev.fileSources[k].resolution.None?)
                            || LanguageFailure(ev.fileSources, 0).Some?
                            || NullDereference(ev))
    ensures r.Fail? ==> r.error == NullPointer || r.error == IndexOutOfBounds
    ensures |ev.fileSources| >= 2 && r.Fail? &&
            (forall k :: 0 <= k < |ev.fileSources| ==> PrimaryLanguage(ev.fileSources[k].languages) != Fail(IndexOutOfBounds)) ==>
              r == Fail(NullPointer)
    ensures |ev.fileSources| >= 2 && r.Fail? &&
            (forall k :: 0 <= k < |ev.fileSources| ==> ev.fileSources[k].resolution.Some?) &&
            !NullDereference(ev) &&
            (forall k :: 0 <= k < |ev.fileSources| ==> PrimaryLanguage(ev.fileSources[k].languages) != Fail(NullPointer)) ==>
              r == Fail(IndexOutOfBounds)
  {
    var srcs := ev.fileSources;
    if |srcs| == 0 then Fail(IndexOutOfBounds)
    else if |srcs| == 1 then Ok(0)
    else if exists k :: 0 <= k < |srcs| && srcs[k].resolution.None? then Fail(NullPointer)
    else match LanguageFailure(srcs, 0)
      case Some(e) => Fail(e)
      case None => if NullDereference(ev) then Fail(NullPointer) else Ok(FirstLeast(SourceKeys(ev)))
  }

  /**
   * An event without a competition cannot choose between two sources of the
   * same resolution: the sort throws, with NullPointerException whenever no
   * language fails with IndexOutOfBoundsException.
   */
  lemma NullCompetitionThrows(ev: EventView, i: nat, j: nat)
    requires ev.competition.None?
    requires i < |ev.fileSources| && j < |ev.fileSources| && i != j
    requires ev.fileSources[i].resolution.Some? && ev.fileSources[i].resolution == ev.fileSources[j].resolution
    ensures BestIndex(ev).Fail?
    ensures (forall k :: 0 <= k < |ev.fileSources| ==> PrimaryLanguage(ev.fileSources[k].languages) != Fail(IndexOutOfBounds)) ==>
              BestIndex(ev) == Fail(NullPointer)
  {
    var srcs := ev.fileSources;
    if forall k :: 0 <= k < |srcs| ==> srcs[k].resolution.Some? {
      assert CompareSources(ev, srcs[i], KeyLanguage(srcs[i]), srcs[j], KeyLanguage(srcs[j])).Fail?;
      assert NullDereference(ev);
    }
  }

  /** getBestFileSource: the source at the chosen position. */
  function BestFileSource(ev: EventView): (r: Result<VFS.VideoFileSource>)
    ensures r.Ok? ==> r.value in ev.fileSources
    ensures |ev.fileSources| == 0 ==> r == Fail(IndexOutOfBounds)
  {
    var i :- BestIndex(ev);
    Ok(ev.fileSources[i])
  }

  /**
   * The chosen source compares, by the comparator as written and without
   * throwing, no greater than every other source and strictly less than
   * each source before it.
   */
  lemma BestIsLeast(ev: EventView)
    requires |ev.fileSources| >= 2 && BestIndex(ev).Ok?
    ensures var srcs := ev.fileSources; var i := BestIndex(ev).value;
      && (forall k :: 0 <= k < |srcs| ==> srcs[k].resolution.Some?)
      && (forall k :: 0 <= k < |srcs| && k != i ==>
            var c := CompareSources(ev, srcs[i], KeyLanguage(srcs[i]), srcs[k], KeyLanguage(srcs[k]));
            c.Ok? && c.value <= 0)
      && (forall k :: 0 <= k < i ==>
            var c := CompareSources(ev, srcs[k], KeyLanguage(srcs[k]), srcs[i], KeyLanguage(srcs[i]));
            c.Ok? && c.value > 0)
  {
    var srcs := ev.fileSources;
    var i := BestIndex(ev).value;
    var keys := SourceKeys(ev);
    assert !NullDereference(ev);
    forall k | 0 <= k < |srcs| && k != i
      ensures var c := CompareSources(ev, srcs[i], KeyLanguage(srcs[i]), srcs[k], KeyLanguage(srcs[k]));
              c.Ok? && c.value <= 0
    {
      assert CompareSources(ev, srcs[i], KeyLanguage(srcs[i]), srcs[k], KeyLanguage(srcs[k])).Ok?;
      CompareSourcesByKey(ev, srcs[i], KeyLanguage(srcs[i]), srcs[k], KeyLanguage(srcs[k]));
    }
    forall k | 0 <= k < i
      ensures var c := CompareSources(ev, srcs[k], KeyLanguage(srcs[k]), srcs[i], KeyLanguage(srcs[i]));
              c.Ok? && c.value > 0
    {
      assert CompareSources(ev, srcs[k], KeyLanguage(srcs[k]), srcs[i], KeyLanguage(srcs[i])).Ok?;
      CompareSourcesByKey(ev, srcs[k], KeyLanguage(srcs[k]), srcs[i], KeyLanguage(srcs[i]));
    }
  }

  /** The chosen source has the earliest-declared resolution among the sources. */
  lemma BestHasEarliestResolution(ev: EventView)
    requires |ev.fileSources| >= 2 && BestIndex(ev).Ok?
    ensures var srcs := ev.fileSources; var i := BestIndex(ev).value;
      forall k :: 0 <= k < |srcs| ==>
        srcs[k].resolution.Some? && Ordinal(srcs[i].resolution.value) <= Ordinal(srcs[k].resolution.value)
  {
    var keys := SourceKeys(ev);
    var i := BestIndex(ev).value;
    assert forall k :: 0 <= k < |keys| ==> keys[i] <= keys[k];
  }

  /**
   * Among sources of the earliest resolution, a language spoken in the
   * competition's country wins: when one such source has it, the chosen
   * source has it too.
   */
  lemma CompetitionLanguagePreferred(ev: EventView, k: nat)
    requires |ev.fileSources| >= 2 && BestIndex(ev).Ok? && HasLocales(CompetitionCountry(ev))
    requires k < |ev.fileSources|
    requires var srcs := ev.fileSources; var i := BestIndex(ev).value;
      srcs[k].resolution == srcs[i].resolution && Speaks(CompetitionCountry(ev).value, KeyLanguage(srcs[k]))
    ensures var srcs := ev.fileSources; var i := BestIndex(ev).value;
      Speaks(CompetitionCountry(ev).value, KeyLanguage(srcs[i]))
  {
    var keys := SourceKeys(ev);
    var i := BestIndex(ev).value;
    assert keys[i] <= keys[k];
  }

  /** Without a country with locales and without teams, the first source of the earliest resolution is chosen. */
  lemma WithoutLanguagesFirstEarliest(ev: EventView)
    requires |ev.fileSources| >= 2 && BestIndex(ev).Ok?
    requires !HasLocales(CompetitionCountry(ev)) && ev.teams.None?
    ensures var srcs := ev.fileSources; var i := BestIndex(ev).value;
      forall k :: 0 <= k < i ==> Ordinal(srcs[k].resolution.value) > Ordinal(srcs[i].resolution.value)
  {
    var keys := SourceKeys(ev);
    var i := BestIndex(ev).value;
    assert forall k :: 0 <= k < i ==> keys[k] > keys[i];
  }

  // ---------------------------------------------------------------------
  // getPlaylistFiles
  // ---------------------------------------------------------------------

  /** What the choice reads of a pack: its first part's external URL, None without a first part. */
  datatype VideoFilePack = VideoFilePack(firstPartUrl: Option<String>)

  /** An enabled plugin accepts the pack's first part. */
  predicate HasPlugin(pack: VideoFilePack, enabled: seq<Plugins.Plugin>, accepts: (Plugins.Plugin, String) -> bool)
  {
    pack.firstPartUrl.Some? && Plugins.FirstAccepting(enabled, pack.firstPartUrl.value, accepts).Some?
  }

  /** The key of the comparator as written: Boolean order puts false, no plugin, first. */
  function PackKeys(packs: seq<VideoFilePack>, enabled: seq<Plugins.Plugin>,
                    accepts: (Plugins.Plugin, String) -> bool): (keys: seq<int>)
    ensures |keys| == |packs|
    ensures forall k :: 0 <= k < |packs| ==> keys[k] == if HasPlugin(packs[k], enabled, accepts) then 1 else 0
  {
    seq(|packs|, k requires 0 <= k < |packs| => if HasPlugin(packs[k], enabled, accepts) then 1 else 0)
  }

  /** getPlaylistFiles as written: the first pack after the stable sort, IndexOutOfBounds without packs. */
  function PlaylistFiles(packs: seq<VideoFilePack>, enabled: seq<Plugins.Plugin>,
                         accepts: (Plugins.Plugin, String) -> bool): (r: Result<VideoFilePack>)
    ensures |packs| == 0 <==> r == Fail(IndexOutOfBounds)
    ensures r.Ok? ==> r.value in packs
  {
    if |packs| == 0 then Fail(IndexOutOfBounds)
    else Ok(packs[FirstLeast(PackKeys(packs, enabled, accepts))])
  }

  /** As written, a pack no enabled plugin can serve is preferred whenever there is one. */
  lemma PlaylistFilesPrefersUnserved(packs: seq<VideoFilePack>, enabled: seq<Plugins.Plugin>,
                                     accepts: (Plugins.Plugin, String) -> bool, k: nat)
    requires k < |packs| && !HasPlugin(packs[k], enabled, accepts)
    ensures !HasPlugin(PlaylistFiles(packs, enabled, accepts).value, enabled, accepts)
  {
    var keys := PackKeys(packs, enabled, accepts);
    assert keys[FirstLeast(keys)] <= keys[k];
  }

  /** Concretely: of a served pack and a pack without parts, the pack without parts is chosen. */
  lemma PlaylistFilesAsWrittenExample()
    ensures var p := Plugins.Plugin(1, [], 0);
      var accepts := (q: Plugins.Plugin, u: String) => true;
      var served := VideoFilePack(Some([]));
      var empty := VideoFilePack(None);
      HasPlugin(served, [p], accepts) && PlaylistFiles([served, empty], [p], accepts) == Ok(empty)
  {
    var p := Plugins.Plugin(1, [], 0);
    var accepts := (q: Plugins.Plugin, u: String) => true;
    var served := VideoFilePack(Some([]));
    var empty := VideoFilePack(None);
    var keys := PackKeys([served, empty], [p], accepts);
    assert keys == [1, 0];
  }

  /** The corrected key: a pack an enabled plugin can serve comes first. */
  function ServedFirstKeys(packs: seq<VideoFilePack>, enabled: seq<Plugins.Plugin>,
                           accepts: (Plugins.Plugin, String) -> bool): (keys: seq<int>)
    ensures |keys| == |packs|
    ensures forall k :: 0 <= k < |packs| ==> keys[k] == if HasPlugin(packs[k], enabled, accepts) then 0 else 1
  {
    seq(|packs|, k requires 0 <= k < |packs| => if HasPlugin(packs[k], enabled, accepts) then 0 else 1)
  }

  /** getPlaylistFiles corrected: the first pack an enabled plugin can serve, else the first pack. */
  function PlaylistFilesCorrected(packs: seq<VideoFilePack>, enabled: seq<Plugins.Plugin>,
                                  accepts: (Plugins.Plugin, String) -> bool): (r: Result<VideoFilePack>)
    ensures |packs| == 0 <==> r == Fail(IndexOutOfBounds)
    ensures r.Ok? ==> r.value in packs
  {
    if |packs| == 0 then Fail(IndexOutOfBounds)
    else Ok(packs[FirstLeast(ServedFirstKeys(packs, enabled, accepts))])
  }

  /**
   * Corrected, the chosen pack is served whenever some pack is, and it is
   * the first served pack; with none served it is the first pack.
   */
  lemma PlaylistFilesCorrectedPrefersServed(packs: seq<VideoFilePack>, enabled: seq<Plugins.Plugin>,
                                            accepts: (Plugins.Plugin, String) -> bool)
    requires |packs| > 0
    ensures var i := FirstLeast(ServedFirstKeys(packs, enabled, accepts));
      && PlaylistFilesCorrected(packs, enabled, accepts) == Ok(packs[i])
      && ((exists k :: 0 <= k < |packs| && HasPlugin(packs[k], enabled, accepts)) ==>
            HasPlugin(packs[i], enabled, accepts) && forall k :: 0 <= k < i ==> !HasPlugin(packs[k], enabled, accepts))
      && ((forall k :: 0 <= k < |packs| ==> !HasPlugin(packs[k], enabled, accepts)) ==> i == 0)
  {
    var keys := ServedFirstKeys(packs, enabled, accepts);
    var i := FirstLeast(keys);
    if exists k :: 0 <= k < |packs| && HasPlugin(packs[k], enabled, accepts) {
      var k :| 0 <= k < |packs| && HasPlugin(packs[k], enabled, accepts);
      assert keys[i] <= keys[k];
    } else {
      assert keys[0] == keys[i];
    }
  }
}
