/**
 * The later copy of the entry parser (plugin/datasource/parsing/EntryParser.java).
 *
 * It shares the capture, season, fixture, date, part-caption and packing rules
 * of DatasourceEntryParser, which are used from there. It differs in four
 * places: the order in which the event fields are read, the failure message
 * (which is built by getFailMsg), the audio channels (kept as the captured
 * text), and the adapter over a collection of kits (which turns a failing kit
 * into null instead of ending the stream).
 */
module ParsingEntryParser {
  import opened Outcome
  import opened JavaString
  import opened Domain
  import opened EventFileSource
  import opened DatasourceEntryParser

  /** The longest text the failure message quotes whole. */
  const MaxTextLen: nat := 128

  /**
   * getFailMsg's excerpt as written: a text shorter than 128 characters is
   * quoted whole; a longer one loses its underscores and is cut at 128
   * characters, which throws when fewer than 128 are left.
   */
  function GetFailMsgAsWritten(text: String): (r: Result<String>)
    ensures |text| < MaxTextLen ==> r == Ok(text)
    ensures r.Fail? <==> |text| >= MaxTextLen && |Replace(text, "_", "")| < MaxTextLen
    ensures r.Fail? ==> r.error == IndexOutOfBounds
  {
    if |text| < MaxTextLen then Ok(text)
    else
      var cleaned := Replace(text, "_", "");
      if |cleaned| < MaxTextLen then Fail(IndexOutOfBounds) else Ok(cleaned[..MaxTextLen] + "...")
  }

  /**
   * As written, the length test is made on the text before its underscores are
   * removed: a 128-character text holding an underscore throws.
   */
  lemma GetFailMsgThrowsOnUnderscore(text: String)
    requires |text| == MaxTextLen && Contains(text, "_")
    ensures GetFailMsgAsWritten(text) == Fail(IndexOutOfBounds)
  {
    RemoveCharShortens(text, '_');
  }

  /** The smallest such text: 127 letters and one underscore. */
  lemma GetFailMsgThrowsExample()
    ensures var text := seq(127, _ => 'a') + "_";
      GetFailMsgAsWritten(text) == Fail(IndexOutOfBounds)
  {
    var text := seq(127, _ => 'a') + "_";
    assert OccursAt(text, "_", 127) by {
      assert text[127..128] == "_";
    }
    ContainsIff(text, "_");
    GetFailMsgThrowsOnUnderscore(text);
  }

  /**
   * getFailMsg's excerpt as intended: a short text whole, a longer one without
   * underscores, cut at 128 characters when still longer, and marked "...".
   */
  function GetFailMsg(text: String): (r: String)
    ensures |text| < MaxTextLen ==> r == text
    ensures |r| <= MaxTextLen + 3
    ensures |text| >= MaxTextLen ==>
      |r| >= 3 && r[|r| - 3..] == "..." && r[..|r| - 3] == FailExcerpt(text)
      && !Contains(r[..|r| - 3], "_")
  {
    if |text| < MaxTextLen then text
    else
      var r := FailExcerpt(text) + "...";
      assert r[..|r| - 3] == FailExcerpt(text);
      r
  }

  /** Whenever the written message is built, the intended one is the same. */
  lemma GetFailMsgAgrees(text: String)
    requires GetFailMsgAsWritten(text).Ok?
    ensures GetFailMsgAsWritten(text).value == GetFailMsg(text)
  {
  }

  /**
   * parseEventData in this copy: competition first, then the teams, date,
   * fixture and season; when the metadata pattern does not match, an
   * IllegalArgumentException carrying getFailMsg's excerpt, or the
   * StringIndexOutOfBoundsException that building the excerpt throws.
   */
  function ParseEventData(text: String, metadata: Option<MatchGroups>, kit: EventKit,
                          parseDate: DateParser, today: DateTime): (r: Result<ParsedEvent>)
    ensures metadata.None? ==> r.Fail?
    ensures metadata.None? && GetFailMsgAsWritten(text).Fail? ==> r.error == IndexOutOfBounds
    ensures metadata.None? && GetFailMsgAsWritten(text).Ok? ==> r.error == UnparsableText(GetFailMsg(text))
    ensures metadata.Some? ==>
      r == DatasourceEntryParser.ParseEventData(text, metadata, kit, parseDate, today)
  {
    if metadata.None? then
      var excerpt :- GetFailMsgAsWritten(text);
      Fail(UnparsableText(excerpt))
    else
      var m := metadata.value;
      var competition :- Capture(m, kit.competitionName);
      var home :- Capture(m, kit.homeTeamName);
      var away :- Capture(m, kit.awayTeamName);
      var date :- ParseDate(m, kit, parseDate, today);
      var fixture :- ParseFixture(m, kit);
      var season :- ParseSeason(m, kit);
      Ok(ParsedEvent(TeamOf(home), TeamOf(away), CompetitionOf(competition), season, fixture, date))
  }

  /**
   * createVideoFileSource in this copy: the same defaults (SD, and 0 for
   * bitrate, size and frame rate), but the audio channels stay the captured
   * text.
   */
  function CreateVideoFileSource(m: MatchGroups, kit: FileSourceKit): (r: Result<ParsedFileSource<Option<String>>>)
    ensures r.Ok? <==> CapturesOk(m, kit) && CaptureLong(m, kit.videoBitrate).Ok? && CaptureLong(m, kit.filesize).Ok?
                       && CaptureInteger(m, kit.framerate).Ok?
    ensures r.Fail? ==> r.error in {IndexOutOfBounds, NumberFormat, Wrapped(NumberFormat)}
    ensures r.Ok? ==> r.value.videoFilePacks == []
    ensures r.Ok? ==> TextFields(m, kit, r.value)
    ensures r.Ok? ==> Capture(m, kit.audioChannels) == Ok(r.value.audioChannels)
    ensures r.Ok? ==> (Capture(m, kit.resolution).Ok? &&
      r.value.resolution == (if Capture(m, kit.resolution).value.None? then Some(R_SD)
                             else ResolutionFromString(Capture(m, kit.resolution).value.value)))
    ensures r.Ok? ==> (CaptureLong(m, kit.videoBitrate) == Ok(r.value.videoBitrate)
      && CaptureLong(m, kit.filesize) == Ok(r.value.fileSize))
    ensures r.Ok? ==> (CaptureInteger(m, kit.framerate).Ok? &&
      r.value.frameRate == (if CaptureInteger(m, kit.framerate).value.None? then 0
                            else CaptureInteger(m, kit.framerate).value.value))
  {
    var channel :- Capture(m, kit.channel);
    var res :- Capture(m, kit.resolution);
    var resolution := if res.Some? then ResolutionFromString(res.value) else Some(R_SD);
    var source :- Capture(m, kit.source);
    var duration :- Capture(m, kit.duration);
    var languages :- Capture(m, kit.languages);
    var container :- Capture(m, kit.container);
    var vCodec :- Capture(m, kit.videoCodec);
    var aCodec :- Capture(m, kit.audioCodec);
    var audioChannels :- Capture(m, kit.audioChannels);
    var vBitrate :- CaptureLong(m, kit.videoBitrate);
    var filesize :- CaptureLong(m, kit.filesize);
    var framerateData :- CaptureInteger(m, kit.framerate);
    var framerate := if framerateData.Some? then framerateData.value else 0;
    Ok(ParsedFileSource(channel, resolution, source, duration, languages, container, vCodec, aCodec,
                        audioChannels, vBitrate, filesize, framerate, []))
  }

  /** Apart from the audio channels, both copies build the same file source from a match. */
  lemma CreateVideoFileSourceAgrees(m: MatchGroups, kit: FileSourceKit)
    requires DatasourceEntryParser.CreateVideoFileSource(m, kit).Ok?
    ensures CreateVideoFileSource(m, kit).Ok?
    ensures var a := DatasourceEntryParser.CreateVideoFileSource(m, kit).value;
      var b := CreateVideoFileSource(m, kit).value;
      b == WithChannels(a, b.audioChannels)
  {
    var a := DatasourceEntryParser.CreateVideoFileSource(m, kit).value;
    assert Capture(m, kit.duration) == Ok(a.approximateDuration);
    assert Capture(m, kit.container) == Ok(a.mediaContainer);
    assert Capture(m, kit.videoCodec) == Ok(a.videoCodec);
    assert Capture(m, kit.audioCodec) == Ok(a.audioCodec);
  }

  /** getEvent in this copy. */
  method GetEvent(text: String, metadata: Option<MatchGroups>, kit: EventKit, scans: seq<FileSourceScan>,
                  put: PackPut, isUrl: String -> bool, parseDate: DateParser, today: DateTime)
    returns (r: Result<(ParsedEvent, seq<ParsedFileSource<Option<String>>>)>)
    ensures ParseEventData(text, metadata, kit, parseDate, today).Fail? ==>
      r == Fail(ParseEventData(text, metadata, kit, parseDate, today).error)
    ensures ParseEventData(text, metadata, kit, parseDate, today).Ok? ==>
      var sources := AllSources(scans, CreateVideoFileSource, put, isUrl);
      && (r.Ok? <==> sources.Ok?)
      && (r.Ok? ==> r.value == (ParseEventData(text, metadata, kit, parseDate, today).value, sources.value))
      && (r.Fail? ==> r.error == sources.error)
  {
    var event :- ParseEventData(text, metadata, kit, parseDate, today);
    var sources :- ParseVideoFileSources(scans, CreateVideoFileSource, put, isUrl);
    return Ok((event, sources));
  }

  /**
   * PatternKitAdapter.with over a collection of kits in this copy: each kit's
   * event, or null for a kit whose parse threw; one entry per kit.
   */
  function WithEach<K, E>(kits: seq<K>, parse: K -> Result<E>): (r: seq<Option<E>>)
    ensures |r| == |kits|
    ensures forall i :: 0 <= i < |kits| ==> (r[i].Some? <==> parse(kits[i]).Ok?)
    ensures forall i :: 0 <= i < |kits| && r[i].Some? ==> r[i].value == parse(kits[i]).value
  {
    if |kits| == 0 then []
    else [if parse(kits[0]).Ok? then Some(parse(kits[0]).value) else None] + WithEach(kits[1..], parse)
  }

  /** Where the earlier adapter yields all events, this one yields the same events. */
  lemma WithEachExtendsWithAll<K, E>(kits: seq<K>, parse: K -> Result<E>)
    requires WithAll(kits, parse).Ok?
    ensures forall i :: 0 <= i < |kits| ==> WithEach(kits, parse)[i] == Some(WithAll(kits, parse).value[i])
  {
  }
}
