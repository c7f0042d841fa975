# Matchday metadata parsing, modelled in Dafny

Matchday collects football match videos from blogs and forums. It reads a
post or a page, works out which event it describes (competition, season,
fixture, teams, date) and which video file sources it offers (channel,
resolution, languages, codecs, the links to each part of the match), and
orders those sources for playback, serving them as HLS playlists. This
project models that core:

Shared layers:

- `outcome.dfy`: `Option`, `Result` and the Java exceptions the core can raise.
- `jstring.dfy`, `regex.dfy`, `java_list.dfy`, `hls_text.dfy`: the Java
  library behaviour the core relies on. These are `java.lang.String` and
  `Integer`/`Long` parsing with Java's ranges and 32-bit wrap-around; the
  fixed regular expressions as matchers, with `find`, `split` and
  `replaceAll`; `List.indexOf` and `List.remove`; and the line view of the
  HTTP Live Streaming text (RFC 8216) the playlists write.
- `domain.dfy`: competitions, teams, seasons, fixtures and events.
- `event_file.dfy`, `event_file_source.dfy`, `video_file_source.dfy`: the
  event-part identifiers, the resolution enumeration, identity and ordering
  of file sources.

Title and entry parsers:

- `datasource_entry_parser.dfy`, `parsing_entry_parser.dfy`: the two
  pattern-kit entry parsers.
- `galataman_event_parser.dfy`, `galataman_event_data_parser.dfy`,
  `zkf_event_parser.dfy`, `event_metadata_parser.dfy`: the title parsers of
  the blogs. The ZKF parser is a class whose fields its methods update in turn.
- `forum_plugin.dfy`: the forum data-source plugin. It covers query-string
  parsing, next-page links, the bounded scraping loop and event filtering.

File-source parsers of the blogs:

- `gman_metadata.dfy`, `gman_file_metadata.dfy`: the Galataman key/value
  metadata, the list-based builders and the plugin's field-by-field parsers.
- `token_scan.dfy`, `gman_event_file_source_parser.dfy`,
  `plugin_gman_event_file_source_parser.dfy`: the token walk over a
  Galataman post and the two GMan post parsers.
- `galataman_post_parts.dfy`, `galataman_blogger_post.dfy`,
  `galataman_feed_post.dfy`, `galataman_legacy_post.dfy`,
  `galataman_blogger_source.dfy`, `galataman_feed_match_source.dfy`,
  `galataman_legacy_match_source.dfy`: the three Galataman posts and their
  sources.
- `zkf_tokens.dfy`, `zkf_metadata.dfy`, `zkf_metadata_parser.dfy`,
  `zkf_file_source_metadata_parser.dfy`, `zkf_feed_metadata.dfy`,
  `zkf_feed_source_parser.dfy`, `zkf_legacy_source_parser.dfy`,
  `plugin_zkf_event_file_source_parser.dfy`: the ZKFootball metadata parsers
  and post walkers.

Playlists and services:

- `m3u.dfy`, `simple_m3u.dfy`, `variant_m3u.dfy`, `m3u_playlist.dfy`: the
  media playlists. The video-package `M3UPlaylist` inherits `HEADER` and
  `INF` from a superclass `M3U` in its own package, which is not part of
  this model; the two constants are taken to be "#EXTM3U" and "#EXTINF:",
  as the other playlist classes spell them.
- `master_playlist.dfy`, `master_m3u.dfy`, `legacy_master_m3u.dfy`: the
  master playlists.
- `resource_file_reader.dfy`, `net_resource_file_reader.dfy`,
  `test_resource_file_reader.dfy`: the three copies of the properties reader.
- `page_evaluator.dfy`, `net_page_evaluator.dfy`: the two FileFox page
  classifiers.
- `file_server_plugin_service.dfy`, `video_file_selector_service.dfy`,
  `event_service.dfy`, `stream_delay_advice_service.dfy`,
  `artwork_service.dfy`: the services that route URLs to plugins, choose
  what to stream, store events, advise on stream delay and manage artwork.

The page data that each parser sees appears as a parameter. Examples are
the groups of a regular-expression match, the text of a link's preceding
siblings, and the events a list page yields. So do the clock, the date
formatter and the repository lookups.

## Model

| member | source | states |
|---|---|---|
| EventFile.FromString | src/main/java/self/me/matchday/model/EventFile.java:152-164 | the loop returns the first identifier, in declaration order, whose pattern matches the whole string, and DEFAULT when none does; that result is `PartOf(s)` |
| EventFile.OrderIsPosition | src/main/java/self/me/matchday/model/EventFile.java:107-113 | each identifier's order is its position among the declared values minus one |
| EventFile.DefaultFullMatch | src/main/java/self/me/matchday/model/EventFile.java:107-113 | DEFAULT's empty pattern matches only the empty string |
| EventFile.FullMatchFinds | src/main/java/self/me/matchday/model/EventFile.java:136-143 | a whole-string match is also a found match, so fromString's answer is a part identifier |
| EventFile.FromStringIsPartIdentifier | src/main/java/self/me/matchday/model/EventFile.java:136-164 | whatever fromString recognises, isPartIdentifier accepts |
| EventFile.FromStringPreMatch | src/main/java/self/me/matchday/model/EventFile.java:152-164 | "Pre-Match" reads as PRE_MATCH |
| EventFile.FromStringSecondHalf | src/main/java/self/me/matchday/model/EventFile.java:152-164 | "2nd HALF" reads as SECOND_HALF, whatever its case |
| EventFile.FromStringEmpty | src/main/java/self/me/matchday/model/EventFile.java:152-164 | the empty string reads as DEFAULT |
| EventFile.NewEventFile | src/main/java/self/me/matchday/model/EventFile.java:53-61 | a new file keeps its title and URL and has no id, no internal URL, no metadata and a zero refresh time |
| EventFile.Equals | src/main/java/self/me/matchday/model/EventFile.java:80-88 | equality is equality of ids; a receiver without an id throws NullPointerException |
| EventFile.EqualsById | src/main/java/self/me/matchday/model/EventFile.java:80-88 | between files with ids, equals is symmetric and holds exactly when the ids agree |
| EventFile.CompareTo | src/main/java/self/me/matchday/model/EventFile.java:97-100 | files order by their part's order, and compare equal exactly when their parts are the same |
| EventFile.CompareToOrder | src/main/java/self/me/matchday/model/EventFile.java:97-113 | compareTo is antisymmetric and follows the declaration order of the parts |
| EventFile.FirstFullMatch | src/main/java/self/me/matchday/model/EventFile.java:152-164 | the first identifier, in declaration order from i, whose pattern matches the whole string; none exactly when no such identifier matches |
| EventFileSource.ResolutionFromString | src/main/java/self/me/matchday/model/EventFileSource.java:163-168 | the result matches the string's pattern, and no earlier constant does; the result is null only when no constant matches |
| EventFileSource.OrdinalIsPosition | src/main/java/self/me/matchday/model/EventFileSource.java:107-113 | each resolution's ordinal is its declared position |
| EventFileSource.IsResolutionIff | src/main/java/self/me/matchday/model/EventFileSource.java:148-152 | isResolution holds exactly when fromString finds a constant |
| EventFileSource.LineBreakDefeatsResolution | src/main/java/self/me/matchday/model/EventFileSource.java:124 | `.*name.*` cannot match across a line terminator, so such a string has no resolution |
| EventFileSource.ResolutionPrecedence | src/main/java/self/me/matchday/model/EventFileSource.java:107-124 | "4K" anywhere wins over "1080p", because 4K is declared first |
| EventFileSource.CompareByResolution | src/main/java/self/me/matchday/model/EventFileSource.java:89-105 | a missing resolution compares below; different resolutions order by ordinal; equal ones by the channel difference |
| EventFileSource.CompareTo | src/main/java/self/me/matchday/model/EventFileSource.java:89-105 | compareTo is CompareByResolution on the two sources' resolutions and audio channels |
| EventFileSource.CompareToNullNotAntisymmetric | src/main/java/self/me/matchday/model/EventFileSource.java:92-94 | two sources without a resolution each compare below the other |
| EventFileSource.CompareToOverflowNotAntisymmetric | src/main/java/self/me/matchday/model/EventFileSource.java:96-99 | channel counts far apart overflow the subtraction, so both orders give the same sign |
| EventFileSource.CompareByResolutionCorrected | src/main/java/self/me/matchday/model/EventFileSource.java:89-105 | missing resolutions rank lowest, and equal ranks order by the sign of the channel difference |
| EventFileSource.CorrectedIsOrder | src/main/java/self/me/matchday/model/EventFileSource.java:89-105 | the corrected comparison is antisymmetric and transitive, and its zero is an equivalence |
| EventFileSource.FirstMatching | src/main/java/self/me/matchday/model/EventFileSource.java:163-168 | the first resolution, in declaration order from i, whose pattern matches the string; none exactly when none matches |
| VideoFileSource.EqualsNotReflexiveWhenIncomplete | src/main/java/self/me/matchday/model/video/VideoFileSource.java:195-207 | a source equals itself exactly when channel, languages and resolution are all present |
| VideoFileSource.EqualsIsEquivalence | src/main/java/self/me/matchday/model/video/VideoFileSource.java:195-207 | equals is symmetric and transitive |
| VideoFileSource.HashCode | src/main/java/self/me/matchday/model/video/VideoFileSource.java:226-232 | the hash is a 32-bit int |
| VideoFileSource.HashCodeConsistentWithEquals | src/main/java/self/me/matchday/model/video/VideoFileSource.java:194-232 | sources that equals calls equal have the same hashCode |
| VideoFileSource.CompareTo | src/main/java/self/me/matchday/model/video/VideoFileSource.java:210-223 | a missing resolution compares below; different resolutions order by ordinal; equal ones by the channel difference |
| VideoFileSource.CompareToNullNotAntisymmetric | src/main/java/self/me/matchday/model/video/VideoFileSource.java:212-215 | two sources without a resolution each compare below the other |
| VideoFileSource.StringHash | src/main/java/self/me/matchday/model/video/VideoFileSource.java:226-232 | a string's hash is a 32-bit int |
| VideoFileSource.HashStep | src/main/java/self/me/matchday/model/video/VideoFileSource.java:228-231 | one step of `31 * hash + part` wraps to a 32-bit int |
| VideoFileSource.HashCodeReadsThreeFields | src/main/java/self/me/matchday/model/video/VideoFileSource.java:226-232 | sources that agree on channel, languages and resolution hash alike, whatever their other fields |
| DatasourceEntryParser.Capture | src/main/java/self/me/matchday/plugin/datasource/EntryParser.java:110-126 | group 0 or a group past the count gives null; a missing or empty capture gives null; otherwise the captured text; a negative group throws |
| DatasourceEntryParser.CaptureInteger | src/main/java/self/me/matchday/plugin/datasource/EntryParser.java:110-126 | an Integer group is the captured text's parseInt, and a non-number throws the wrapped NumberFormatException |
| DatasourceEntryParser.CaptureIntegerPrinted | src/main/java/self/me/matchday/plugin/datasource/EntryParser.java:110-126 | a captured printed int reads back as that int |
| DatasourceEntryParser.ParseDate | src/main/java/self/me/matchday/plugin/datasource/EntryParser.java:273-278 | no date group gives today; otherwise the formatter's date, and a DateTimeParseException when it cannot parse |
| DatasourceEntryParser.ParseFixture | src/main/java/self/me/matchday/plugin/datasource/EntryParser.java:263-271 | the fixture is titled with the captured text, and is empty without one |
| DatasourceEntryParser.CenturyYear | src/main/java/self/me/matchday/plugin/datasource/EntryParser.java:251 | two-digit years fall in 1950-2049 with the same last two digits; larger years stay |
| DatasourceEntryParser.ParseInts | src/main/java/self/me/matchday/plugin/datasource/EntryParser.java:248-252 | every piece parses or the whole parse throws NumberFormatException; values keep their order |
| DatasourceEntryParser.ParseSeason | src/main/java/self/me/matchday/plugin/datasource/EntryParser.java:242-261 | no season group gives the default season; otherwise the group split on "/" fails with NumberFormatException exactly when some piece does not parse, two pieces give the two century-completed years, one piece gives its century-completed year and the next, wrapped to an int, and any other count the default season |
| DatasourceEntryParser.ParseIntsOf | src/main/java/self/me/matchday/plugin/datasource/EntryParser.java:248-252 | pieces that each parse give exactly their values |
| DatasourceEntryParser.ParseSeasonTwoDigits | src/main/java/self/me/matchday/plugin/datasource/EntryParser.java:242-261 | "19/20" gives the 2019-2020 season |
| DatasourceEntryParser.ParseSeasonOneYear | src/main/java/self/me/matchday/plugin/datasource/EntryParser.java:242-261 | "2019" gives the 2019-2020 season |
| DatasourceEntryParser.ParseEventData | src/main/java/self/me/matchday/plugin/datasource/EntryParser.java:80-108 | with a metadata match, the event succeeds exactly when every field reader does and carries their values; without one it throws, with StringIndexOutOfBoundsException when the underscore-free text is shorter than 128 characters and otherwise with its 128-character excerpt |
| DatasourceEntryParser.FailExcerptAsWritten | src/main/java/self/me/matchday/plugin/datasource/EntryParser.java:103-107 | the message's substring(0, 128) throws unless the underscore-free text has 128 characters |
| DatasourceEntryParser.FailExcerptThrowsOnShortText | src/main/java/self/me/matchday/plugin/datasource/EntryParser.java:103-107 | any text shorter than 128 characters makes the failure message itself throw |
| DatasourceEntryParser.FailExcerpt | src/main/java/self/me/matchday/plugin/datasource/EntryParser.java:103-107 | the excerpt is a prefix of the underscore-free text, at most 128 characters, and the whole of it when shorter |
| DatasourceEntryParser.Sum32IsWrappedSum | src/main/java/self/me/matchday/plugin/datasource/EntryParser.java:284 | IntStream.sum wraps each step, and that equals wrapping the exact sum |
| DatasourceEntryParser.ParseAudioChannels | src/main/java/self/me/matchday/plugin/datasource/EntryParser.java:280-285 | no data gives 0; otherwise the 32-bit sum of the dot-separated numbers, failing when one does not parse |
| DatasourceEntryParser.ParseAudioChannelsSurround | src/main/java/self/me/matchday/plugin/datasource/EntryParser.java:280-285 | "5.1" gives 6 channels |
| DatasourceEntryParser.ParseAudioChannelsEmpty | src/main/java/self/me/matchday/plugin/datasource/EntryParser.java:280-285 | an empty capture throws NumberFormatException |
| DatasourceEntryParser.CaptureLong | src/main/java/self/me/matchday/plugin/datasource/EntryParser.java:167-170 | a missing bitrate or file size is 0; otherwise parseLong of the capture, or NumberFormatException |
| DatasourceEntryParser.CreateVideoFileSource | src/main/java/self/me/matchday/plugin/datasource/EntryParser.java:153-189 | the source is made exactly when every group is readable and the channels, bitrate, size and frame rate parse; it then holds each group's text (channel, source, duration, languages, container, both codecs), the resolution read or R_SD, the summed channels, the parsed bitrate, size and frame rate (0 without one) and no packs; a failure is an index or number-format exception |
| DatasourceEntryParser.GetPartIdentifier | src/main/java/self/me/matchday/plugin/datasource/EntryParser.java:297-318 | the first part, in the order pre, first, second, post, trophy, whose keyword the lower-cased caption holds; none gives null; a null group throws |
| DatasourceEntryParser.FirstHalfLabel | src/main/java/self/me/matchday/plugin/datasource/EntryParser.java:303-308 | a caption saying "first" and not "pre" is the first half |
| DatasourceEntryParser.GetPartIdentifierNeverExtraTime | src/main/java/self/me/matchday/plugin/datasource/EntryParser.java:303-315 | no caption ever reads as extra time or DEFAULT |
| DatasourceEntryParser.FindPartTitle | src/main/java/self/me/matchday/plugin/datasource/EntryParser.java:287-295 | the nearest sibling that names a part decides it, and DEFAULT when none does |
| DatasourceEntryParser.Placed | src/main/java/self/me/matchday/plugin/datasource/EntryParser.java:215-228 | the first pack that accepts the file takes it and no other pack changes; when none does, a new pack holding it is appended |
| DatasourceEntryParser.PutVideoFileInPack | src/main/java/self/me/matchday/plugin/datasource/EntryParser.java:215-228 | the loop leaves exactly the packs `Placed` describes |
| DatasourceEntryParser.PackAll | src/main/java/self/me/matchday/plugin/datasource/EntryParser.java:191-213 | each link adds at most one pack |
| DatasourceEntryParser.ParseVideoFiles | src/main/java/self/me/matchday/plugin/datasource/EntryParser.java:191-213 | the loop over links yields `PackAll` from no packs |
| DatasourceEntryParser.MapVideoFilesToFileSources | src/main/java/self/me/matchday/plugin/datasource/EntryParser.java:230-239 | source i gets pack i when there is one; the other sources are unchanged |
| DatasourceEntryParser.CreateAll | src/main/java/self/me/matchday/plugin/datasource/EntryParser.java:140-146 | one source per match, in order; the first failure ends it |
| DatasourceEntryParser.ParseFileSourceFrom | src/main/java/self/me/matchday/plugin/datasource/EntryParser.java:137-151 | one source per metadata match, each with the pack at its position |
| DatasourceEntryParser.ParseVideoFileSources | src/main/java/self/me/matchday/plugin/datasource/EntryParser.java:128-134 | the stream over the kits gives exactly AllSources: every kit's sources, kit after kit, each made from its match with its packs placed, or the first kit's failure |
| DatasourceEntryParser.GetEvent | src/main/java/self/me/matchday/plugin/datasource/EntryParser.java:71-78 | a failing parseEventData is passed on; otherwise the result succeeds exactly when AllSources does, and is parseEventData's event with those sources, or the sources' failure |
| DatasourceEntryParser.WithAll | src/main/java/self/me/matchday/plugin/datasource/EntryParser.java:332-334 | the stream yields each kit's event in order, and the first failing kit ends it with its exception |
| DatasourceEntryParser.FailExcerptAgrees | src/main/java/self/me/matchday/plugin/datasource/EntryParser.java:103-107 | wherever the message as written is built it is the intended excerpt |
| DatasourceEntryParser.Sum32 | src/main/java/self/me/matchday/plugin/datasource/EntryParser.java:284 | the 32-bit sum stays within the int range |
| DatasourceEntryParser.FirstMentioned | src/main/java/self/me/matchday/plugin/datasource/EntryParser.java:297-318 | the first part, in the order the checks are made, whose keyword the caption holds; none exactly when the caption holds none of them |
| DatasourceEntryParser.FirstDeciding | src/main/java/self/me/matchday/plugin/datasource/EntryParser.java:287-295 | the first sibling whose caption names a part or throws; none exactly when every caption names no part |
| DatasourceEntryParser.FirstAccepting | src/main/java/self/me/matchday/plugin/datasource/EntryParser.java:215-228 | the first pack that accepts the file; none exactly when no pack does |
| DatasourceEntryParser.SourcesOfContents | src/main/java/self/me/matchday/plugin/datasource/EntryParser.java:137-151 | one kit's sources exist exactly when every match makes a source and every link packs; then there is one source per match, in order, the i-th with the i-th pack added when there is one |
| DatasourceEntryParser.AllSourcesFailed | src/main/java/self/me/matchday/plugin/datasource/EntryParser.java:128-134 | once the kits up to i fail, the whole parse fails with the same exception |
| DatasourceEntryParser.SourcesOfLength | src/main/java/self/me/matchday/plugin/datasource/EntryParser.java:137-151 | every kit yields one source per metadata match |
| DatasourceEntryParser.AllSourcesLength | src/main/java/self/me/matchday/plugin/datasource/EntryParser.java:128-134 | the sources of all kits number the matches of all kits |
| DatasourceEntryParser.AllSourcesLayout | src/main/java/self/me/matchday/plugin/datasource/EntryParser.java:128-134 | kit j's sources stand, in order, right after the sources of the kits before it |
| DatasourceEntryParser.AllSourcesPrefix | src/main/java/self/me/matchday/plugin/datasource/EntryParser.java:128-134 | the sources of the first k kits begin the sources of all kits |
| DatasourceEntryParser.SourceCountPrefix | src/main/java/self/me/matchday/plugin/datasource/EntryParser.java:128-134 | counting kit by kit, one more kit adds its own matches and never exceeds the total |
| DatasourceEntryParser.AllSourcesStep | src/main/java/self/me/matchday/plugin/datasource/EntryParser.java:128-134 | the flattened sources are those of all kits but the last followed by the last kit's |
| ParsingEntryParser.GetFailMsgAsWritten | src/main/java/self/me/matchday/plugin/datasource/parsing/EntryParser.java:124-134 | short text is kept whole; longer text throws exactly when removing underscores leaves fewer than 128 characters |
| ParsingEntryParser.GetFailMsgThrowsOnUnderscore | src/main/java/self/me/matchday/plugin/datasource/parsing/EntryParser.java:126-129 | a 128-character text with an underscore makes the message throw |
| ParsingEntryParser.GetFailMsgThrowsExample | src/main/java/self/me/matchday/plugin/datasource/parsing/EntryParser.java:126-129 | 127 letters and an underscore make the message throw |
| ParsingEntryParser.GetFailMsg | src/main/java/self/me/matchday/plugin/datasource/parsing/EntryParser.java:124-134 | short text is kept whole; longer text becomes at most 128 underscore-free characters and "..." |
| ParsingEntryParser.GetFailMsgAgrees | src/main/java/self/me/matchday/plugin/datasource/parsing/EntryParser.java:124-134 | wherever the code as written does not throw, the corrected message is the same |
| ParsingEntryParser.ParseEventData | src/main/java/self/me/matchday/plugin/datasource/parsing/EntryParser.java:89-114 | with a metadata match, the same event as the earlier parser; without one it throws, with StringIndexOutOfBoundsException when getFailMsg as written does, and otherwise with getFailMsg's text |
| ParsingEntryParser.CreateVideoFileSource | src/main/java/self/me/matchday/plugin/datasource/parsing/EntryParser.java:171-206 | the source is made exactly when every group is readable and the bitrate, size and frame rate parse; it then holds each group's text, the captured audio channels text itself, the resolution read or R_SD, the parsed numbers (frame rate 0 without one) and no packs; a failure is an index or number-format exception |
| ParsingEntryParser.CreateVideoFileSourceAgrees | src/main/java/self/me/matchday/plugin/datasource/parsing/EntryParser.java:171-206 | whenever the earlier parser makes a source, this one makes one with the same fields, audio channels apart |
| ParsingEntryParser.GetEvent | src/main/java/self/me/matchday/plugin/datasource/parsing/EntryParser.java:80-87 | a failing parseEventData is passed on; otherwise the result succeeds exactly when AllSources does, and is parseEventData's event with those sources, or the sources' failure |
| ParsingEntryParser.WithEach | src/main/java/self/me/matchday/plugin/datasource/parsing/EntryParser.java:341-356 | each kit yields its event, or null when it throws, and the stream goes on |
| ParsingEntryParser.WithEachExtendsWithAll | src/main/java/self/me/matchday/plugin/datasource/parsing/EntryParser.java:341-356 | where no kit fails, the catching stream yields the same events as the earlier one |
| GalatamanEventParser.SeasonText | src/main/java/self/me/matchday/feed/blogger/galataman/GalatamanEventParser.java:39 | `\d{2}/?\d{2}` finds a season text exactly when there is one, and it is two digits, an optional slash, two digits |
| GalatamanEventParser.ParseCompetitionData | src/main/java/self/me/matchday/feed/blogger/galataman/GalatamanEventParser.java:105-121 | without a season the name is the whole part; with one, the part with the season text removed |
| GalatamanEventParser.ParseSeasonData | src/main/java/self/me/matchday/feed/blogger/galataman/GalatamanEventParser.java:125-158 | never throws: "yy/yy" gives both years plus 2000, "yyyy" gives that year and the next, no season the default |
| GalatamanEventParser.SeasonYears | src/main/java/self/me/matchday/feed/blogger/galataman/GalatamanEventParser.java:136-148 | a season text splits on "/" into exactly its two halves and each parses to its digits' value |
| GalatamanEventParser.ParseFixtureData | src/main/java/self/me/matchday/feed/blogger/galataman/GalatamanEventParser.java:162-175 | the first two-digit run gives the number, and the text before it the title; otherwise the whole part is the title |
| GalatamanEventParser.ParseDateData | src/main/java/self/me/matchday/feed/blogger/galataman/GalatamanEventParser.java:177-194 | the parsed date, or the current time when it does not parse |
| GalatamanEventParser.SetupTeams | src/main/java/self/me/matchday/feed/blogger/galataman/GalatamanEventParser.java:196-212 | teams exist exactly when " vs " is found; they are the trimmed text before and after it |
| GalatamanEventParser.TeamMatchShape | src/main/java/self/me/matchday/feed/blogger/galataman/GalatamanEventParser.java:38 | what ` vs.? ` matches is a space, "vs", at most one more character and a space |
| GalatamanEventParser.TitlePartsRejoin | src/main/java/self/me/matchday/feed/blogger/galataman/GalatamanEventParser.java:59 | no part of the split title holds " - ", and the parts rejoin to the title |
| GalatamanEventParser.GetEvent | src/main/java/self/me/matchday/feed/blogger/galataman/GalatamanEventParser.java:58-101 | fewer than four parts throw IndexOutOfBounds; otherwise, numbering the parts from 0, competition and season come from part 0, the fixture from part 1, the date from part 3, and the event is a Match with part 2's teams exactly when part 2 names teams, else a HighlightShow titled with part 2 |
| GalatamanEventParser.SeasonExampleSlashed | src/main/java/self/me/matchday/feed/blogger/galataman/GalatamanEventParser.java:136-145 | "19/20" gives the 2019-2020 season |
| GalatamanEventParser.SeasonExampleYear | src/main/java/self/me/matchday/feed/blogger/galataman/GalatamanEventParser.java:146-149 | "2021" gives the 2021-2022 season |
| GalatamanEventDataParser.GetEvent | main/java/self/me/matchday/feed/blogger/galataman/GalatamanEventDataParser.java:56-94 | fewer than three parts throw; teams come from part 2, and the date is the post's publication time |
| GalatamanEventDataParser.AgreesWithEventParser | main/java/self/me/matchday/feed/blogger/galataman/GalatamanEventDataParser.java:56-94 | it reads competition, season and fixture as the event parser does |
| ZKFEventParser.SeasonMatchEnd | src/main/java/self/me/matchday/feed/blogger/zkfootball/ZKFEventParser.java:29 | where the season pattern ends when it matches at a position |
| ZKFEventParser.CategoryOf | src/main/java/self/me/matchday/feed/blogger/zkfootball/ZKFEventParser.java:107-117 | a part is a competition-season part first, else a teams part, else a fixture part |
| ZKFEventParser.LastOfIsLast | src/main/java/self/me/matchday/feed/blogger/zkfootball/ZKFEventParser.java:107-117 | the index kept is the last part of its category, or -1 when there is none |
| ZKFEventParser.SeasonOfPart | src/main/java/self/me/matchday/feed/blogger/zkfootball/ZKFEventParser.java:138-155 | without a season both years are 2000; with one, years up to 100 get 2000 added and larger ones stay |
| ZKFEventParser.SeasonOfGroup | src/main/java/self/me/matchday/feed/blogger/zkfootball/ZKFEventParser.java:146-151 | the years either side of the slash, each completed to a full year |
| ZKFEventParser.CenturyOf | src/main/java/self/me/matchday/feed/blogger/zkfootball/ZKFEventParser.java:150-151 | years above 100 stay; others get 2000 added |
| ZKFEventParser.CompetitionOfPart | src/main/java/self/me/matchday/feed/blogger/zkfootball/ZKFEventParser.java:164-170 | the competition is the text before the season's first occurrence |
| ZKFEventParser.CompSeasonHasSeason | src/main/java/self/me/matchday/feed/blogger/zkfootball/ZKFEventParser.java:30-31 | a competition-season part always contains a season |
| ZKFEventParser.MatchdayOfPart | src/main/java/self/me/matchday/feed/blogger/zkfootball/ZKFEventParser.java:157-162 | "J" and two digits give the fixture "Matchday" with that number |
| ZKFEventParser.TeamsOfPart | src/main/java/self/me/matchday/feed/blogger/zkfootball/ZKFEventParser.java:181-191 | the teams are the first two pieces of the split on " vs "; a missing second piece leaves the away team unset |
| ZKFEventParser.FixtureOfPartAsWritten | src/main/java/self/me/matchday/feed/blogger/zkfootball/ZKFEventParser.java:197-212 | split on two digits: at most one piece gives the titled fixture; otherwise the text after the first two digits is read as the number, a number there giving the numbered fixture and anything else keeping the current fixture |
| ZKFEventParser.FixtureOfPartAsWrittenLosesNumber | src/main/java/self/me/matchday/feed/blogger/zkfootball/ZKFEventParser.java:202-209 | "Matchday 12 leg" keeps the previous fixture |
| ZKFEventParser.SplitAtTwoDigits | src/main/java/self/me/matchday/feed/blogger/zkfootball/ZKFEventParser.java:202 | a text with one two-digit run splits into the text before and after it |
| ZKFEventParser.FixtureOfPart | src/main/java/self/me/matchday/feed/blogger/zkfootball/ZKFEventParser.java:197-212 | the fixture is the text before the first two-digit run, numbered with that run's value |
| ZKFEventParser.FixtureOfPartKeepsNumber | src/main/java/self/me/matchday/feed/blogger/zkfootball/ZKFEventParser.java:197-212 | "Matchday 12 leg" gives "Matchday " numbered 12 |
| ZKFEventParser.EventOf | src/main/java/self/me/matchday/feed/blogger/zkfootball/ZKFEventParser.java:52-212 | an empty split throws; otherwise the season is the competition part's (the current one without it), the competition name is part 0 without a competition part, the event is a Match exactly when the teams part names both teams, a highlight show's title is the rejoined title, and the date is the post's |
| ZKFEventParser.FixturePartOverrides | src/main/java/self/me/matchday/feed/blogger/zkfootball/ZKFEventParser.java:193-212 | as written, a fixture part overrides the competition part's fixture only when it has no two-digit split or the text after its digits parses; otherwise the competition part's "Jnn" fixture, or none, stays |
| ZKFEventParser.ZKFEventParser.ParsePartIndices | src/main/java/self/me/matchday/feed/blogger/zkfootball/ZKFEventParser.java:107-118 | the loop leaves each index at the last part of its category |
| ZKFEventParser.ZKFEventParser.ParseCompetitionData | src/main/java/self/me/matchday/feed/blogger/zkfootball/ZKFEventParser.java:135-176 | with a competition part: season, fixture and name from it; otherwise the name is part 0, which throws on an empty title |
| ZKFEventParser.ZKFEventParser.ParseTeamData | src/main/java/self/me/matchday/feed/blogger/zkfootball/ZKFEventParser.java:181-191 | the teams are TeamsOfPart of the teams part, and stay unset without one |
| ZKFEventParser.ZKFEventParser.ParseFixtureData | src/main/java/self/me/matchday/feed/blogger/zkfootball/ZKFEventParser.java:197-212 | the fixture becomes the as-written reading of the fixture part, and is unchanged without one; every other field is unchanged |
| ZKFEventParser.ZKFEventParser.GetEvent | src/main/java/self/me/matchday/feed/blogger/zkfootball/ZKFEventParser.java:64-86 | a Match exactly when both teams are set, otherwise a HighlightShow titled with the rejoined title |
| ZKFEventParser.NewZKFEventParser | src/main/java/self/me/matchday/feed/blogger/zkfootball/ZKFEventParser.java:52-62 | the constructor throws IndexOutOfBounds exactly when EventOf does, and otherwise leaves a new parser whose event is EventOf the title |
| ZKFEventParser.LastOf | src/main/java/self/me/matchday/feed/blogger/zkfootball/ZKFEventParser.java:107-117 | the index kept is -1 or one of the parts looked at |
| ZKFEventParser.SeasonMatchAt | src/main/java/self/me/matchday/feed/blogger/zkfootball/ZKFEventParser.java:144-146 | the leftmost match of "\\d{2,4}/\\d{2}" is a season text at that place: the longest digit run there, a slash and two digits |
| ZKFEventParser.SeasonAtText | src/main/java/self/me/matchday/feed/blogger/zkfootball/ZKFEventParser.java:29 | the text of a season match at a position is a season text, made of the part's digits either side of the slash |
| ZKFEventParser.SeasonGroupSplits | src/main/java/self/me/matchday/feed/blogger/zkfootball/ZKFEventParser.java:146-148 | a season text splits on its slash into its two digit runs, each of which parses, the first below 10,000 and the second below 100 |
| ZKFEventParser.CompSeasonFromSeason | src/main/java/self/me/matchday/feed/blogger/zkfootball/ZKFEventParser.java:30-31 | a part the competition-season pattern finds in holds a season text |
| ZKFEventParser.SeasonFirstOccurrence | src/main/java/self/me/matchday/feed/blogger/zkfootball/ZKFEventParser.java:165-168 | indexOf of the leftmost season match's text is the place it matched |
| ZKFEventParser.SeasonTextIsMatch | src/main/java/self/me/matchday/feed/blogger/zkfootball/ZKFEventParser.java:29 | wherever a season text occurs, the season pattern matches there |
| ZKFEventParser.SplitMatchdayTwelveLeg | src/main/java/self/me/matchday/feed/blogger/zkfootball/ZKFEventParser.java:202 | "Matchday 12 leg" has its two-digit run at 9 and splits into "Matchday " and " leg" |
| ZKFEventParser.FindTwoDigitsAt | src/main/java/self/me/matchday/feed/blogger/zkfootball/ZKFEventParser.java:202 | behind a text without digits, the first two-digit run is the one that starts the rest |
| ZKFEventParser.NoTwoDigitsIn | src/main/java/self/me/matchday/feed/blogger/zkfootball/ZKFEventParser.java:202 | a text without digits holds no two-digit run |
| ZKFEventParser.EventOfFields | src/main/java/self/me/matchday/feed/blogger/zkfootball/ZKFEventParser.java:135-212 | the competition is the competition part's name, or part 0 without such a part; the fixture is the fixture part's as written, over the competition part's "Jnn" fixture; a match's teams are those of the teams part |
| ZKFEventParser.ZKFEventParser.Init | src/main/java/self/me/matchday/feed/blogger/zkfootball/ZKFEventParser.java:52-58 | a new parser has no indices, no title parts, no competition or teams, the season of the current year and the next (wrapped to 32 bits), an empty fixture and the date |
| ZKFEventParser.ZKFEventParser.ParseCompetitionPart | src/main/java/self/me/matchday/feed/blogger/zkfootball/ZKFEventParser.java:137-171 | with a competition part: the season of the part, its "Jnn" fixture if any and its name when it holds a season; nothing else changes |
| ZKFEventParser.ZKFEventParser.ParseSeason | src/main/java/self/me/matchday/feed/blogger/zkfootball/ZKFEventParser.java:138-155 | the season becomes that of the competition part; nothing else changes |
| ZKFEventParser.ZKFEventParser.ParseTitleFixture | src/main/java/self/me/matchday/feed/blogger/zkfootball/ZKFEventParser.java:158-162 | "J" and two digits in the competition part set the fixture "Matchday" with that number; otherwise, and for every other field, nothing changes |
| ZKFEventParser.ZKFEventParser.ParseCompetitionName | src/main/java/self/me/matchday/feed/blogger/zkfootball/ZKFEventParser.java:165-170 | the competition becomes the text before the first occurrence of the season, when the part holds one; nothing else changes |
| ForumPlugin.AddParamAsWritten | src/main/java/net/tomasbot/matchday/plugin/datasource/forum/ForumPlugin.java:61-62 | the step throws exactly when the parameter cannot be read: `pair[0]` throws ArrayIndexOutOfBoundsException when it splits on "=" into nothing, and URLDecoder.decode throws IllegalArgumentException when its key or value does not decode |
| ForumPlugin.AddParamAsWrittenThrows | src/main/java/net/tomasbot/matchday/plugin/datasource/forum/ForumPlugin.java:61-62 | the parameter "=" throws ArrayIndexOutOfBoundsException |
| ForumPlugin.AddParamMalformedEscape | src/main/java/net/tomasbot/matchday/plugin/datasource/forum/ForumPlugin.java:61-65 | a value that does not decode, as in "q=%zz", throws IllegalArgumentException from URLDecoder.decode |
| ForumPlugin.AddParamEffect | src/main/java/net/tomasbot/matchday/plugin/datasource/forum/ForumPlugin.java:61-74 | a skipped parameter leaves the map unchanged; otherwise its value is appended to its key's list |
| ForumPlugin.AddParamAgrees | src/main/java/net/tomasbot/matchday/plugin/datasource/forum/ForumPlugin.java:60-75 | wherever the code as written does not throw, the corrected step gives the same map |
| ForumPlugin.CollectParamsValues | src/main/java/net/tomasbot/matchday/plugin/datasource/forum/ForumPlugin.java:60-75 | a key is present exactly when some parameter gives it a value, and its list holds those values in order |
| ForumPlugin.CollectParamsStep | src/main/java/net/tomasbot/matchday/plugin/datasource/forum/ForumPlugin.java:60-75 | the parameters so far, plus one, are the previous map with that parameter added |
| ForumPlugin.GetQueryParams | src/main/java/net/tomasbot/matchday/plugin/datasource/forum/ForumPlugin.java:52-78 | the loop's result is QueryParams: no "?" gives an empty map; otherwise the parameters of the text between the first and second "?", throwing ArrayIndexOutOfBoundsException on a parameter made only of "=" signs and IllegalArgumentException on one that does not decode |
| ForumPlugin.AddParams | src/main/java/net/tomasbot/matchday/plugin/datasource/forum/ForumPlugin.java:60-75 | the loop gives exactly the as-written fold of the parameters, throwing where it throws |
| ForumPlugin.QueryEntriesArePairs | src/main/java/net/tomasbot/matchday/plugin/datasource/forum/ForumPlugin.java:80-85 | the query entries are exactly the texts `k + "=" + v` for a listed key k of the map and a value v of k: every entry is one, and every such text is an entry |
| ForumPlugin.GetQueryNonEmpty | src/main/java/net/tomasbot/matchday/plugin/datasource/forum/ForumPlugin.java:80-85 | a map with a non-empty key and a value gives a non-empty query |
| ForumPlugin.CurrentPageAsWritten | src/main/java/net/tomasbot/matchday/plugin/datasource/forum/ForumPlugin.java:94-99 | `\d` accepts one digit only: a first value of one digit reads as that digit, anything else as 0 |
| ForumPlugin.CurrentPageAsWrittenDropsTwelve | src/main/java/net/tomasbot/matchday/plugin/datasource/forum/ForumPlugin.java:98 | page "12" reads as 0 |
| ForumPlugin.CurrentPage | src/main/java/net/tomasbot/matchday/plugin/datasource/forum/ForumPlugin.java:94-99 | a first value of one to nine digits reads as its number; a longer run of digits reads as its int when it fits and 0 otherwise; no value, an empty one or one with a non-digit reads as 0 |
| ForumPlugin.CurrentPageAgrees | src/main/java/net/tomasbot/matchday/plugin/datasource/forum/ForumPlugin.java:94-99 | on one-digit pages the corrected reading is the one as written |
| ForumPlugin.CurrentPageTwelve | src/main/java/net/tomasbot/matchday/plugin/datasource/forum/ForumPlugin.java:94-99 | page "12" reads as 12 |
| ForumPlugin.NextParamsEffect | src/main/java/net/tomasbot/matchday/plugin/datasource/forum/ForumPlugin.java:133-137 | the same keys; the page becomes the single number one past the page read as written; every other key is unchanged |
| ForumPlugin.ParseNextLinkSpec | src/main/java/net/tomasbot/matchday/plugin/datasource/forum/ForumPlugin.java:130-144 | a URL whose parameters throw gives their exception, ArrayIndexOutOfBoundsException or IllegalArgumentException; otherwise there is no next link exactly when there is no page parameter, any other failure is a malformed URL, and a next link is a URL |
| ForumPlugin.NextLinkAdvancesPage | src/main/java/net/tomasbot/matchday/plugin/datasource/forum/ForumPlugin.java:130-144 | "...list?page=3" links to "...list?page=4" |
| ForumPlugin.ParseNextLinkOf | src/main/java/net/tomasbot/matchday/plugin/datasource/forum/ForumPlugin.java:130-144 | the next link is the URL with the current query replaced by the next one, or a malformed-URL failure when that is not a URL |
| ForumPlugin.ReadListEvent | src/main/java/net/tomasbot/matchday/plugin/datasource/forum/ForumPlugin.java:154-183 | a known event gives null; for a new one, an IOException (MalformedURLException and FileNotFoundException included) from the page read is rethrown wrapped and any other exception passes through unchanged, no event on the page gives null, and an event on the page gives the listing's event with the page's file sources added |
| ForumPlugin.ReadEventStreamValid | src/main/java/net/tomasbot/matchday/plugin/datasource/forum/ForumPlugin.java:146-152 | every event the stream yields has a competition and a date, and a list without valid events yields none |
| ForumPlugin.ScrapePagesShape | src/main/java/net/tomasbot/matchday/plugin/datasource/forum/ForumPlugin.java:114-119 | the first page read is the base URL's, and the loop goes on past a page only when it yielded events |
| ForumPlugin.ScrapeBound | src/main/java/net/tomasbot/matchday/plugin/datasource/forum/ForumPlugin.java:110-119 | at most max(scrapeSteps, 1) pages are read |
| ForumPlugin.ScrapeContinues | src/main/java/net/tomasbot/matchday/plugin/datasource/forum/ForumPlugin.java:114-119 | a page with events, steps left and a next link is followed by the snapshot from the next link |
| ForumPlugin.ScrapeStops | src/main/java/net/tomasbot/matchday/plugin/datasource/forum/ForumPlugin.java:114-119 | otherwise the snapshot ends with this page's events |
| ForumPlugin.ScrapeFails | src/main/java/net/tomasbot/matchday/plugin/datasource/forum/ForumPlugin.java:114-119 | a page that cannot be read ends the snapshot with its exception |
| ForumPlugin.Scrape | src/main/java/net/tomasbot/matchday/plugin/datasource/forum/ForumPlugin.java:109-120 | the do-while loop yields the events of the pages ScrapePages reads, in order |
| ForumPlugin.GetSnapshot | src/main/java/net/tomasbot/matchday/plugin/datasource/forum/ForumPlugin.java:101-121 | the snapshot is the events of the pages ScrapePages reads from the base URL with scrapeSteps - 1, wrapped to an int, further steps, following the next links as written |
| ForumPlugin.GetUrlSnapshot | src/main/java/net/tomasbot/matchday/plugin/datasource/forum/ForumPlugin.java:192-198 | the snapshot holds exactly the event read from the URL |
| ForumPlugin.QueryOf | src/main/java/net/tomasbot/matchday/plugin/datasource/forum/ForumPlugin.java:54-59 | a URL without "?" has no query; the query is the text between the first and the second "?" |
| ForumPlugin.CollectParamsThrows | src/main/java/net/tomasbot/matchday/plugin/datasource/forum/ForumPlugin.java:60-75 | the loop as written throws exactly when some parameter cannot be read, with the exception of the first such parameter: ArrayIndexOutOfBoundsException for one made only of "=" signs, IllegalArgumentException for one that does not decode |
| ForumPlugin.CollectParamsAgrees | src/main/java/net/tomasbot/matchday/plugin/datasource/forum/ForumPlugin.java:60-75 | where the loop as written does not throw it builds the map the intended loop builds |
| ForumPlugin.QueryParams | src/main/java/net/tomasbot/matchday/plugin/datasource/forum/ForumPlugin.java:52-78 | a URL with no query gives the empty map |
| ForumPlugin.QueryParamsValues | src/main/java/net/tomasbot/matchday/plugin/datasource/forum/ForumPlugin.java:52-78 | getQueryParams throws exactly when some parameter cannot be read, with the first such parameter's exception (ArrayIndexOutOfBoundsException for one made only of "=" signs, IllegalArgumentException for a malformed escape); otherwise a key is present exactly when some parameter gives it a value, its list holds those values in order, and no list is empty |
| ForumPlugin.CollectParamsAsWrittenStep | src/main/java/net/tomasbot/matchday/plugin/datasource/forum/ForumPlugin.java:60-75 | the loop as written over one more parameter is the loop so far followed by that parameter |
| ForumPlugin.CollectParamsAsWrittenFails | src/main/java/net/tomasbot/matchday/plugin/datasource/forum/ForumPlugin.java:60-75 | once the parameters so far throw, the whole loop throws the same |
| ForumPlugin.KeyEntries | src/main/java/net/tomasbot/matchday/plugin/datasource/forum/ForumPlugin.java:83 | one "key=value" entry per value of the key, and none for a key that is not in the map |
| ForumPlugin.EntryAt | src/main/java/net/tomasbot/matchday/plugin/datasource/forum/ForumPlugin.java:80-85 | every entry of the query is some listed key, "=" and one of that key's values |
| ForumPlugin.EntryOf | src/main/java/net/tomasbot/matchday/plugin/datasource/forum/ForumPlugin.java:80-85 | every value of every listed key appears in the query as "key=value" |
| ForumPlugin.QueryEntriesInKeyOrder | src/main/java/net/tomasbot/matchday/plugin/datasource/forum/ForumPlugin.java:80-85 | the entries of the i-th key, one per value in the order of its values, come right after those of the keys before it |
| ForumPlugin.QueryEntriesLayout | src/main/java/net/tomasbot/matchday/plugin/datasource/forum/ForumPlugin.java:80-85 | the entries are those of the keys before key i, then key i's, then those of the keys after it |
| ForumPlugin.QueryEntriesHas | src/main/java/net/tomasbot/matchday/plugin/datasource/forum/ForumPlugin.java:80-85 | a listed key with a value gives at least one entry |
| ForumPlugin.CurrentQueryNonEmpty | src/main/java/net/tomasbot/matchday/plugin/datasource/forum/ForumPlugin.java:132-138 | with a page parameter the current query text is never empty, so the replacement at line 138 always has something to replace |
| ForumPlugin.OrderOfOne | src/main/java/net/tomasbot/matchday/plugin/datasource/forum/ForumPlugin.java:81 | the iteration order of a one-key map lists that key |
| ForumPlugin.QueryEntriesOne | src/main/java/net/tomasbot/matchday/plugin/datasource/forum/ForumPlugin.java:80-85 | a one-key, one-value map gives the single entry "key=value" |
| ForumPlugin.ExampleQuery | src/main/java/net/tomasbot/matchday/plugin/datasource/forum/ForumPlugin.java:54-59 | the query of "http://f/list?page=3" is "page=3" |
| ForumPlugin.ExampleParams | src/main/java/net/tomasbot/matchday/plugin/datasource/forum/ForumPlugin.java:52-78 | the parameters of "http://f/list?page=3" are "page" with the one value "3" |
| ForumPlugin.NextParamsAfterTwelve | src/main/java/net/tomasbot/matchday/plugin/datasource/forum/ForumPlugin.java:94-136 | as written, the parameters after "page=12" are "page=1": twelve reads as page 0 |
| ForumPlugin.ExampleQueries | src/main/java/net/tomasbot/matchday/plugin/datasource/forum/ForumPlugin.java:132-137 | for the parameters "page=3" the current query is "page=3" and the next "page=4" |
| ForumPlugin.ReadEventStream | src/main/java/net/tomasbot/matchday/plugin/datasource/forum/ForumPlugin.java:146-152 | the stream yields at most one event per listing; its order and first failure are in the next two rows |
| ForumPlugin.ReadEventStreamFirstFailure | src/main/java/net/tomasbot/matchday/plugin/datasource/forum/ForumPlugin.java:146-152 | the stream fails with the failure of the first valid listing whose read fails |
| ForumPlugin.ReadEventStreamEvents | src/main/java/net/tomasbot/matchday/plugin/datasource/forum/ForumPlugin.java:146-152 | when no valid listing's read fails the stream holds, in listing order, the events read from the valid listings that yield one |
| ForumPlugin.ScrapePages | src/main/java/net/tomasbot/matchday/plugin/datasource/forum/ForumPlugin.java:110-119 | a scrape reads at least one page and at most steps + 1 of them (one when steps is not positive) |
| M3U.TargetDurationSeconds | main/java/self/me/matchday/model/M3U.java:137-139 | within the int range the target duration is the least whole number n with 100 * n at least the stored duration; beyond it the cast saturates |
| M3U.SegmentLinesAt | main/java/self/me/matchday/model/M3U.java:113-121 | the k-th added segment gives the (2k)-th and (2k+1)-th segment lines, its EXTINF line and its URL: segments come out in the order they were added |
| M3U.DocumentReads | main/java/self/me/matchday/model/M3U.java:155-195 | a head of whole lines, then the segments, then ENDLIST when finalized, reads back as exactly those lines |
| M3U.DocumentLinesShape | main/java/self/me/matchday/model/M3U.java:155-195 | the lines are the head, two lines per segment in order, and ENDLIST last exactly when the playlist is finalized |
| M3U.AsWrittenReads | main/java/self/me/matchday/model/M3U.java:155-195 | the text written reads back as the written tag lines, the segment lines and ENDLIST when finalized |
| M3U.AsWrittenHeaderGlued | main/java/self/me/matchday/model/M3U.java:160-162 | as written, the first line read is "#EXTM3U#EXT-X-PLAYLIST-TYPE:EVENT", not the "#EXTM3U" line section 4.3.1.1 of RFC 8216 requires |
| M3U.CorrectedReadsLines | main/java/self/me/matchday/model/M3U.java:155-195 | with the header on its own line, the text reads back as the seven tag lines, the segment lines and ENDLIST when finalized |
| M3U.CorrectedReads | main/java/self/me/matchday/model/M3U.java:155-195 | with the corrected head a player reads HEADER, the six fixed tags with the target duration fifth and MEDIA-SEQUENCE:0 seventh, each segment's EXTINF and URL in insertion order, and ENDLIST last exactly when finalized |
| M3U.CorrectionSplitsFirstLine | main/java/self/me/matchday/model/M3U.java:160-162 | the correction splits the glued first line into two and leaves every later line as written |
| M3U.M3U.constructor | main/java/self/me/matchday/model/M3U.java:86-89 | a new playlist has no segments, no programme time and is not finalized |
| M3U.M3U.SetTargetDuration | main/java/self/me/matchday/model/M3U.java:96-98 | sets the stored duration and changes nothing else |
| M3U.M3U.SetProgramTime | main/java/self/me/matchday/model/M3U.java:109-111 | sets the programme time and changes nothing else |
| M3U.M3U.AddMediaSegment | main/java/self/me/matchday/model/M3U.java:119-121 | appends the segment after those already added and changes nothing else |
| M3U.M3U.SetFinalized | main/java/self/me/matchday/model/M3U.java:127-129 | sets the finalized flag and changes nothing else |
| M3U.M3U.PlaylistAsString | main/java/self/me/matchday/model/M3U.java:155-195 | the string built is the written head with the rounded target duration and the programme time, then every segment in order, then ENDLIST when finalized |
| M3U.Ceil | main/java/self/me/matchday/model/M3U.java:138 | Math.ceil gives the least integer not below its argument |
| M3U.ToInt | main/java/self/me/matchday/model/M3U.java:138 | the (int) cast keeps values in the int range and saturates at INT_MIN and INT_MAX beyond it |
| M3U.GluedFirstLine | main/java/self/me/matchday/model/M3U.java:160-162 | as written, the first tag line is HEADER immediately followed by PLAYLIST-TYPE, and so is not HEADER alone |
| M3U.TagLinesSplit | main/java/self/me/matchday/model/M3U.java:160-171 | the corrected first two tag lines concatenate to the written first line, and every later tag line is unchanged |
| M3UPlaylist.InfLineIsLine | src/main/java/self/me/matchday/model/video/M3UPlaylist.java:166-173 | a segment's EXTINF line is one line when its printed duration and title are |
| M3UPlaylist.SegmentLinesAt | src/main/java/self/me/matchday/model/video/M3UPlaylist.java:104 | the k-th segment gives the (2k)-th and (2k+1)-th segment lines, its EXTINF line and its URL, so segments are written in the order they were added |
| M3UPlaylist.RenderLines | src/main/java/self/me/matchday/model/video/M3UPlaylist.java:79-111 | toString reads back as the fixed head lines, two lines per segment and ENDLIST when finalized |
| M3UPlaylist.InfLineNotTargetDuration | src/main/java/self/me/matchday/model/video/M3UPlaylist.java:93-97 | no EXTINF line starts with the TARGETDURATION tag |
| M3UPlaylist.FixedTagsNotTargetDuration | src/main/java/self/me/matchday/model/video/M3UPlaylist.java:93-97 | the TARGETDURATION tag is commented out: no fixed line of the playlist carries it |
| M3UPlaylist.PlaylistLinesShape | src/main/java/self/me/matchday/model/video/M3UPlaylist.java:79-111 | the lines are the six head lines, each segment's EXTINF line and URL in order, ENDLIST last exactly when finalized, and none of them is a TARGETDURATION tag |
| M3UPlaylist.RenderShape | src/main/java/self/me/matchday/model/video/M3UPlaylist.java:79-111 | a player reads HEADER first, then the fixed tags, then the segments in insertion order, ENDLIST last exactly when finalized, and no TARGETDURATION tag anywhere |
| M3UPlaylist.EmptyPlaylistText | src/main/java/self/me/matchday/model/video/M3UPlaylist.java:50-52 | a fresh playlist, finalized by default, renders its fixed tags and ENDLIST |
| M3UPlaylist.SimpleText | src/main/java/self/me/matchday/model/video/M3UPlaylist.java:118-126 | the simple playlist is each segment's "# title" line and URL line in order; with no segments it is one empty line |
| M3UPlaylist.PlsEntryLinesAt | src/main/java/self/me/matchday/model/video/M3UPlaylist.java:134-141 | the k-th segment gives the FileN and TitleN lines numbered k + 1 |
| M3UPlaylist.PlsLinesShape | src/main/java/self/me/matchday/model/video/M3UPlaylist.java:129-144 | the PLS lines are "[playlist]", a blank line, FileN and TitleN per segment numbered from 1, a blank line and NumberOfEntries with the segment count |
| M3UPlaylist.PlsShape | src/main/java/self/me/matchday/model/video/M3UPlaylist.java:129-144 | when the URLs and titles are single lines, the PLS text reads back as those lines |
| M3UPlaylist.M3UPlaylist.constructor | src/main/java/self/me/matchday/model/video/M3UPlaylist.java:50-52 | a new playlist has no segments, a zero total duration and is finalized |
| M3UPlaylist.M3UPlaylist.AddMediaSegment | src/main/java/self/me/matchday/model/video/M3UPlaylist.java:61-71 | appends the segment, adds its duration to the total (a missing one counts 0), and keeps the total equal to the sum of the segments' durations |
| M3UPlaylist.M3UPlaylist.SetFinalized | src/main/java/self/me/matchday/model/video/M3UPlaylist.java:52 | sets the finalized flag and changes nothing else |
| M3UPlaylist.M3UPlaylist.PlsPlaylist | src/main/java/self/me/matchday/model/video/M3UPlaylist.java:129-144 | the indexed loop builds the PLS text of the segments |
| M3UPlaylist.PlsEntriesStep | src/main/java/self/me/matchday/model/video/M3UPlaylist.java:134-141 | one more segment appends its FileN and TitleN lines, N being its position counted from 1 |
| SimpleM3U.SegmentsForAt | main/java/self/me/matchday/model/SimpleM3U.java:107-114 | the k-th segment has the k-th file's address and duration and the title "<event title> - <part name>" |
| SimpleM3U.TotalDurationAppend | main/java/self/me/matchday/model/SimpleM3U.java:106-115 | the running total over two runs of files is the sum of their totals |
| SimpleM3U.TotalDurationBounds | main/java/self/me/matchday/model/SimpleM3U.java:106-115 | with non-negative durations the total is non-negative and at least every file's duration |
| SimpleM3U.CollectSegments | main/java/self/me/matchday/model/SimpleM3U.java:100-116 | the forEach loop builds one segment per file in order and the sum of the files' durations |
| SimpleM3U.AppendSegments | main/java/self/me/matchday/model/SimpleM3U.java:150-151 | appending each segment's text in turn gives the head followed by the segments' text |
| SimpleM3U.NameIsLine | src/main/java/self/me/matchday/model/EventFile.java:107-113 | every part's display name is a single line |
| SimpleM3U.SegmentsOnOneLine | main/java/self/me/matchday/model/SimpleM3U.java:107-114 | with a one-line event title and file texts, every segment's EXTINF line and address are single lines |
| SimpleM3U.PlaylistReads | main/java/self/me/matchday/model/SimpleM3U.java:124-159 | a player reads the seven tags with the files' total as TARGETDURATION, then per file in order its EXTINF line and address, then ENDLIST |
| SimpleM3U.SimpleM3U.constructor | main/java/self/me/matchday/model/SimpleM3U.java:100-116 | the playlist keeps the event's title and date, holds one segment per file in order, sums their durations and starts finalized |
| SimpleM3U.SimpleM3U.PlaylistAsString | main/java/self/me/matchday/model/SimpleM3U.java:124-159 | the text is the head with the header on its own line, the segments, and ENDLIST when finalized |
| SimpleM3U.Slug | main/java/self/me/matchday/model/SimpleM3U.java:33-34 | the channel keeps its length; each blank becomes '_' and each letter is lowered |
| SimpleM3U.SimplePlaylistUrl | main/java/self/me/matchday/model/SimpleM3U.java:26-43 | the address fails exactly when the source has no resolution, with NullPointerException |
| SimpleM3U.SlugIsClean | main/java/self/me/matchday/model/SimpleM3U.java:33-34 | the channel part has no blank and no upper-case ASCII letter |
| SimpleM3U.SlugIdempotent | main/java/self/me/matchday/model/SimpleM3U.java:33-34 | cleaning a cleaned channel changes nothing |
| SimpleM3U.UrlDependsOnSlug | main/java/self/me/matchday/model/SimpleM3U.java:26-43 | sources whose channels clean to the same text get the same address |
| SimpleM3U.UrlShape | main/java/self/me/matchday/model/SimpleM3U.java:26-43 | the address starts with the source's id and "/" and ends with "." and the extension |
| SimpleM3U.NoLanguageIsNull | main/java/self/me/matchday/model/SimpleM3U.java:35-39 | a source without languages gets "null" as its language part |
| VariantM3U.VariantM3U.constructor | main/java/self/me/matchday/model/VariantM3U.java:55-76 | the playlist keeps the event, holds one segment per file's internal address in order, sums their durations and starts finalized |
| VariantM3U.VariantM3U.ToString | main/java/self/me/matchday/model/VariantM3U.java:84-118 | the text is the head with the event's date as programme time, the segments, and ENDLIST when finalized |
| MasterPlaylist.Entry.constructor | src/main/java/self/me/matchday/model/video/MasterM3U.java:128-138 | a new entry keeps its resolution, languages, bitrate and link and is not a default |
| MasterPlaylist.Positions | src/main/java/self/me/matchday/model/video/MasterM3U.java:78-80 | the positions of the entries of one resolution, in increasing order: the list groupingBy collects, in encounter order |
| MasterPlaylist.Group | src/main/java/self/me/matchday/model/video/MasterM3U.java:78-80 | a resolution's group has one entry per position of that resolution |
| MasterPlaylist.FirstMulti | src/main/java/self/me/matchday/model/video/MasterM3U.java:83-97 | the resolution whose group is marked is the first, in TreeMap order, with more than one entry; none is marked when every group has at most one |
| MasterPlaylist.PositionsComplete | src/main/java/self/me/matchday/model/video/MasterM3U.java:78-80 | every entry of a resolution is in that resolution's group |
| MasterPlaylist.FirstPosition | src/main/java/self/me/matchday/model/video/MasterM3U.java:78-80 | no entry before a group's first position has that group's resolution |
| MasterPlaylist.MarkedKeeps | src/main/java/self/me/matchday/model/video/MasterM3U.java:87-93 | marking changes only default flags: resolutions, links, bitrates and languages stay, and no default is cleared |
| MasterPlaylist.FirstMultiStable | src/main/java/self/me/matchday/model/video/MasterM3U.java:83-93 | once the first multi-entry group is found, later resolutions do not change it: the AtomicBoolean is set once |
| MasterPlaylist.FirstMultiStep | src/main/java/self/me/matchday/model/video/MasterM3U.java:83-93 | one more resolution in TreeMap order becomes the marked one exactly when none was found before and its group has more than one entry |
| MasterPlaylist.MarkedKeepsDefaultsLead | src/main/java/self/me/matchday/model/video/MasterM3U.java:83-93 | when every default leads its group before rendering, it still does after |
| MasterPlaylist.OneDefaultPerGroup | src/main/java/self/me/matchday/model/video/MasterM3U.java:140-160 | while defaults lead their groups, no later entry of a group prints DEFAULT=YES |
| MasterPlaylist.MarkedMakesDefault | src/main/java/self/me/matchday/model/video/MasterM3U.java:87-93 | rendering makes the first entry of the first multi-entry group a default |
| MasterPlaylist.MarkedIdempotent | src/main/java/self/me/matchday/model/video/MasterM3U.java:83-97 | rendering twice marks the same entries as rendering once |
| MasterPlaylist.FirstMultiSameKeys | src/main/java/self/me/matchday/model/video/MasterM3U.java:78-97 | which group is marked depends only on the entries' resolutions |
| MasterPlaylist.ResolutionsNoRepeats | src/main/java/self/me/matchday/model/EventFileSource.java:107-113 | the declared resolutions are distinct, so each TreeMap key is visited once |
| MasterPlaylist.OneEntryGroup | src/main/java/self/me/matchday/model/video/MasterM3U.java:78-80 | a single entry forms its resolution's group alone and no other |
| MasterPlaylist.SingleEntryGroups | src/main/java/self/me/matchday/model/video/MasterM3U.java:83-100 | with a single entry only its own group prints, as its STREAM-INF identifier |
| MasterPlaylist.SingleEntryText | src/main/java/self/me/matchday/model/video/MasterM3U.java:72-103 | a playlist of one entry is the header and that entry's identifier, with no EXT-X-MEDIA line and no entry marked |
| MasterPlaylist.SetDefault | src/main/java/self/me/matchday/model/video/MasterM3U.java:91 | setDefault(true) on one entry sets its flag and changes no other entry |
| MasterPlaylist.MarkedGroupAt | src/main/java/self/me/matchday/model/video/MasterM3U.java:78-96 | after marking, the k-th entry of a group is the entry at the k-th position, with its bitrate and link unchanged |
| MasterPlaylist.AppendMediaLines | src/main/java/self/me/matchday/model/video/MasterM3U.java:87-96 | the inner forEach writes one EXT-X-MEDIA line per group entry and marks the first entry it meets while the flag is set |
| MasterPlaylist.AppendGroup | src/main/java/self/me/matchday/model/video/MasterM3U.java:85-100 | one group writes its EXT-X-MEDIA lines when it has several entries, then its first entry's identifier |
| MasterPlaylist.MarkedGroup | src/main/java/self/me/matchday/model/video/MasterM3U.java:78-96 | the marked group's entries are the marked entries at its positions |
| MasterPlaylist.MarkedAtFirstMulti | src/main/java/self/me/matchday/model/video/MasterM3U.java:87-93 | the only entry marking sets is the first entry of the first multi-entry group |
| MasterPlaylist.GroupTextOf | src/main/java/self/me/matchday/model/video/MasterM3U.java:85-100 | a group's text is its EXT-X-MEDIA lines when it has several entries, then its first entry's identifier |
| MasterPlaylist.AppendGroups | src/main/java/self/me/matchday/model/video/MasterM3U.java:84-100 | the outer forEach over the resolutions marks the entries as MarkedIn says and appends every group's text |
| MasterPlaylist.Render | src/main/java/self/me/matchday/model/video/MasterM3U.java:72-103 | toString marks the first entry of the first multi-entry group and returns the header followed by every group's text in resolution order |
| MasterPlaylist.GroupsTextStep | src/main/java/self/me/matchday/model/video/MasterM3U.java:84-100 | one more resolution appends the text of that resolution's group |
| MasterM3U.LanguagesText | src/main/java/self/me/matchday/model/video/MasterM3U.java:151 | the NAME text of a languages string is that string |
| MasterM3U.MasterM3U.constructor | src/main/java/self/me/matchday/model/video/MasterM3U.java:39-44 | a new master playlist has no entries |
| MasterM3U.MasterM3U.AddVariant | src/main/java/self/me/matchday/model/video/MasterM3U.java:46-62 | appends a fresh entry with the given fields, a default exactly when it is the first, and keeps every default leading its group |
| MasterM3U.MasterM3U.ToString | src/main/java/self/me/matchday/model/video/MasterM3U.java:72-103 | the rendering marks entries as Marked says, returns MasterText of the marked entries, and keeps the invariant |
| LegacyMasterM3U.LanguagesText | src/main/java/self/me/matchday/model/MasterM3U.java:148 | the NAME text of a single language is that language |
| LegacyMasterM3U.LegacyMasterM3U.constructor | src/main/java/self/me/matchday/model/MasterM3U.java:42-46 | a new master playlist keeps the event id and has no entries |
| LegacyMasterM3U.LegacyMasterM3U.AddVariant | src/main/java/self/me/matchday/model/MasterM3U.java:48-58 | a source without a bitrate fails to unbox, with NullPointerException and no entry added; otherwise a fresh entry is appended, a default exactly when it is the first |
| LegacyMasterM3U.LegacyMasterM3U.ToString | src/main/java/self/me/matchday/model/MasterM3U.java:68-100 | the rendering throws NullPointerException, changing nothing, exactly when some entry has no resolution; otherwise it marks and renders like the video master playlist |
| ResourceFileReader.SplitKeyValue | src/main/java/self/me/matchday/util/ResourceFileReader.java:105-110 | a line without '=' is a key without value |
| ResourceFileReader.SplitKeyValueShape | src/main/java/self/me/matchday/util/ResourceFileReader.java:105-110 | the key holds no '=', the line is the key, '=' and the rest, and there is a rest exactly when the line holds an '=' |
| ResourceFileReader.SplitKeyValueIsSplit | src/main/java/self/me/matchday/util/ResourceFileReader.java:105 | the key and rest are the pieces of line.split("=", 2) |
| ResourceFileReader.SplitKeyValueOf | src/main/java/self/me/matchday/util/ResourceFileReader.java:105-110 | a key without '=' and any rest come back from the line they make |
| ResourceFileReader.ParseProperties | src/main/java/self/me/matchday/util/ResourceFileReader.java:96-125 | the line loop builds the map the lines determine |
| ResourceFileReader.ReadPropertiesResource | src/main/java/self/me/matchday/util/ResourceFileReader.java:92-149 | a missing resource throws NullPointerException; otherwise the map is the one its lines determine |
| ResourceFileReader.KeysComeFromLines | src/main/java/self/me/matchday/util/ResourceFileReader.java:101-123 | every key read is the key of some line, and a key waiting for its continuation is already stored |
| ResourceFileReader.KeyedLinesStored | src/main/java/self/me/matchday/util/ResourceFileReader.java:116-120 | every line with an '=' leaves its key stored: keys are never removed |
| ResourceFileReader.LastAssignmentWins | src/main/java/self/me/matchday/util/ResourceFileReader.java:105-120 | a line with an '=' sets its key to the value without " \\" and trimmed, whatever an earlier line set, and waits for a continuation |
| ResourceFileReader.OneContinuation | src/main/java/self/me/matchday/util/ResourceFileReader.java:111-120 | after "key=rest" one keyless line is appended to the value, and the next keyless line is a key of its own with a null value |
| ResourceFileReader.NullValueContinued | src/main/java/self/me/matchday/util/ResourceFileReader.java:111-120 | a keyless line with nothing to continue is stored with a null value, and a keyless line after it is appended to "null" |
| ResourceFileReader.WithoutComments | src/main/java/net/tomasbot/matchday/util/ResourceFileReader.java:104 | dropping the comment lines never lengthens the lines |
| ResourceFileReader.SkippingIsRemoving | src/main/java/net/tomasbot/matchday/util/ResourceFileReader.java:103-121 | skipping comment lines in the loop is reading the lines with the comments taken out |
| ResourceFileReader.TrailingEmptyIgnored | src/main/java/self/me/matchday/util/ResourceFileReader.java:103 | empty lines at the end change nothing |
| ResourceFileReader.Capitalized | src/main/java/self/me/matchday/util/ResourceFileReader.java:162-163 | capitalising a word keeps its length |
| ResourceFileReader.CamelTailStep | src/main/java/self/me/matchday/util/ResourceFileReader.java:159-165 | each further word extends the camel text by that word capitalised |
| ResourceFileReader.DashToCamelCase | src/main/java/self/me/matchday/util/ResourceFileReader.java:152-168 | the loop over the words is CamelCase of the text |
| ResourceFileReader.CamelCaseNoDash | src/main/java/self/me/matchday/util/ResourceFileReader.java:152-168 | a text without dashes is its own field name |
| ResourceFileReader.CamelCaseDashFree | src/main/java/self/me/matchday/util/ResourceFileReader.java:152-168 | a field name holds no dash |
| ResourceFileReader.CamelCaseTwoWords | src/main/java/self/me/matchday/util/ResourceFileReader.java:152-168 | "x-y" becomes x followed by y capitalised |
| ResourceFileReader.DashesOnlyThrow | src/main/java/self/me/matchday/util/ResourceFileReader.java:155-157 | a key of dashes only splits to no words, so words[0] throws IndexOutOfBoundsException |
| ResourceFileReader.IsLong | src/main/java/self/me/matchday/util/ResourceFileReader.java:170-176 | the value is a long in range when parsed, and null for a null text |
| ResourceFileReader.IsLongPrinted | src/main/java/self/me/matchday/util/ResourceFileReader.java:170-176 | a printed long reads back as itself |
| ResourceFileReader.FieldNameStripsPrefix | src/main/java/self/me/matchday/util/ResourceFileReader.java:56-60 | a key "prefix.name" names the same field as the bare key name |
| ResourceFileReader.CommentNamesNoField | src/main/java/self/me/matchday/util/ResourceFileReader.java:51-53 | a comment key names no field |
| ResourceFileReader.ValueOf | src/main/java/self/me/matchday/util/ResourceFileReader.java:67-72 | a long value is set as a Long exactly when isLong parses it; otherwise the text itself, null included |
| ResourceFileReader.RequiredValueOf | src/main/java/net/tomasbot/matchday/util/ResourceFileReader.java:63-64 | requireNonNullElse throws NullPointerException exactly when the value is null; otherwise it sets what mapPropertiesToClass sets |
| ResourceFileReader.CharPiecesOfJoin | src/main/java/net/tomasbot/matchday/util/ResourceFileReader.java:100 | splitting lines joined with a separator they do not hold gives the lines back |
| ResourceFileReader.ParseJoinedLines | src/main/java/net/tomasbot/matchday/util/ResourceFileReader.java:79-100 | reading lines joined with '\n' and split again reads the lines themselves |
| NetResourceFileReader.ReadTextResource | src/main/java/net/tomasbot/matchday/util/ResourceFileReader.java:83-94 | a missing resource throws FileNotFoundException; otherwise the text is read |
| NetResourceFileReader.ParsePropertiesData | src/main/java/net/tomasbot/matchday/util/ResourceFileReader.java:96-123 | the map is the one the text's lines determine, comment lines skipped |
| NetResourceFileReader.ReadPropertiesResource | src/main/java/net/tomasbot/matchday/util/ResourceFileReader.java:77-81 | a missing resource fails with FileNotFoundException; otherwise the map is the one its non-comment lines determine |
| TestResourceFileReader.ReadTextResource | src/test/java/self/me/matchday/util/ResourceFileReader.java:97-110 | a missing resource reads as null |
| TestResourceFileReader.ParsePropertiesData | src/test/java/self/me/matchday/util/ResourceFileReader.java:128-157 | the map is the one the text's lines determine, comment lines kept |
| TestResourceFileReader.ReadPropertiesResource | src/test/java/self/me/matchday/util/ResourceFileReader.java:89-95 | a missing resource's null text throws NullPointerException when parsed; otherwise the map is the one its lines determine |
| FileServerPluginService.ToMap | src/main/java/self/me/matchday/api/service/FileServerPluginService.java:106-109 | the map holds each plugin under its ID and fails with IllegalStateException at the first ID met twice |
| FileServerPluginService.ToMapFailsOnRepeat | src/main/java/self/me/matchday/api/service/FileServerPluginService.java:106-109 | the map cannot be built exactly when two plugins share an ID |
| FileServerPluginService.UniqueSnoc | src/main/java/self/me/matchday/api/service/FileServerPluginService.java:106-109 | plugins with distinct IDs stay so when a plugin with a new ID is added at the end |
| FileServerPluginService.PluginById | src/main/java/self/me/matchday/api/service/FileServerPluginService.java:104-112 | the plugin found has the ID and is registered; none is found when no plugin has it; building the map can throw first |
| FileServerPluginService.PluginFoundById | src/main/java/self/me/matchday/api/service/FileServerPluginService.java:104-112 | with distinct IDs a registered plugin is found by its own ID |
| FileServerPluginService.EnableTwiceDisableOnce | src/main/java/self/me/matchday/api/service/FileServerPluginService.java:120-149 | enabling a plugin twice and disabling it once leaves it enabled |
| FileServerPluginService.DisableUniqueRemovesId | src/main/java/self/me/matchday/api/service/FileServerPluginService.java:139-149 | when the enabled list holds each ID once, disabling a plugin leaves no entry with its ID |
| FileServerPluginService.FirstAccepting | src/main/java/self/me/matchday/api/service/FileServerPluginService.java:205-214 | the plugin found is in the list and accepts the URL; none is found only when no plugin accepts it |
| FileServerPluginService.FirstAcceptingIsFirst | src/main/java/self/me/matchday/api/service/FileServerPluginService.java:205-214 | no plugin before the one found accepts the URL |
| FileServerPluginService.DownloadUser | src/main/java/self/me/matchday/api/service/FileServerPluginService.java:222-231 | the user is the first logged-in user of the plugin's server, and none when there is no such user |
| FileServerPluginService.PluginService.constructor | src/main/java/self/me/matchday/api/service/FileServerPluginService.java:52-62 | every registered plugin starts enabled, in registration order |
| FileServerPluginService.PluginService.IsPluginEnabled | src/main/java/self/me/matchday/api/service/FileServerPluginService.java:85-96 | the loop answers true exactly when some enabled entry carries the ID |
| FileServerPluginService.PluginService.EnablePlugin | src/main/java/self/me/matchday/api/service/FileServerPluginService.java:120-131 | an unknown ID answers false and changes nothing; a known one appends the plugin to the enabled list, even when it is there, and answers true |
| FileServerPluginService.PluginService.DisablePlugin | src/main/java/self/me/matchday/api/service/FileServerPluginService.java:139-149 | an unknown ID answers false; a known one removes the plugin's first enabled entry and answers whether there was one |
| FileServerPluginService.PluginService.GetEnabledPluginForUrl | src/main/java/self/me/matchday/api/service/FileServerPluginService.java:205-214 | the loop returns the first enabled plugin, in list order, that accepts the URL |
| FileServerPluginService.PluginService.GetFileServerRefreshRate | src/main/java/self/me/matchday/api/service/FileServerPluginService.java:191-197 | the accepting plugin's refresh rate, or four hours when no enabled plugin accepts the URL |
| FileServerPluginService.PluginService.GetDownloadUrl | src/main/java/self/me/matchday/api/service/FileServerPluginService.java:160-182 | IOException when no enabled plugin accepts the URL or its server has no logged-in user; otherwise the accepting plugin's answer for the first user's decrypted cookies |
| VideoFileSelectorService.PrimaryLanguage | src/main/java/self/me/matchday/api/service/video/VideoFileSelectorService.java:47-53 | with a space, the first piece of the split on whitespace; without one, the trimmed text; null languages throw NullPointerException |
| VideoFileSelectorService.PrimaryIsFirstToken | src/main/java/self/me/matchday/api/service/video/VideoFileSelectorService.java:47-53 | with a space in a text that does not start with whitespace, the primary language is its first token, a non-empty whitespace-free prefix ended by whitespace |
| VideoFileSelectorService.PrimaryOfBlankThrows | src/main/java/self/me/matchday/api/service/video/VideoFileSelectorService.java:49-50 | a text of whitespace holding a space splits to nothing, so [0] throws |
| VideoFileSelectorService.PrimaryOfLeadingSpace | src/main/java/self/me/matchday/api/service/video/VideoFileSelectorService.java:49-50 | a text with a space that starts with whitespace has the empty primary language, or none |
| VideoFileSelectorService.CompareLanguages | src/main/java/self/me/matchday/api/service/video/VideoFileSelectorService.java:96-105 | 0 without a country or without locales; otherwise a language spoken in the country sorts before one that is not |
| VideoFileSelectorService.CompareLanguagesByBit | src/main/java/self/me/matchday/api/service/video/VideoFileSelectorService.java:96-105 | compareLanguages orders two languages as their bits, 1 for not spoken, do |
| VideoFileSelectorService.SourceKey | src/main/java/self/me/matchday/api/service/video/VideoFileSelectorService.java:66-91 | the key compares as the resolution's ordinal, then the three language bits in turn |
| VideoFileSelectorService.CompareSourcesByKey | src/main/java/self/me/matchday/api/service/video/VideoFileSelectorService.java:66-91 | where the comparator as written does not throw, it orders two sources as their keys do |
| VideoFileSelectorService.FirstLeast | src/main/java/self/me/matchday/api/service/video/VideoFileSelectorService.java:66-93 | the position taken holds a least key and every earlier position a greater one: the head of a stable sort |
| VideoFileSelectorService.BestIndex | src/main/java/self/me/matchday/api/service/video/VideoFileSelectorService.java:61-94 | no sources throw IndexOutOfBoundsException; a lone source is taken without comparing; with two or more the sort throws exactly when a resolution is missing, a source compared by language has no primary language, or a comparison reaches a null competition (any two sources of one resolution) or a null home or away team of a Match (sources tied on the languages compared before it); always NullPointerException or IndexOutOfBoundsException, NullPointerException whenever no language fails with IndexOutOfBoundsException, and IndexOutOfBoundsException whenever every resolution is present, no null party is reached and no language fails with NullPointerException; otherwise the first least key is chosen |
| VideoFileSelectorService.NullCompetitionThrows | src/main/java/self/me/matchday/api/service/video/VideoFileSelectorService.java:70-73 | an event without a competition and with two sources of one resolution makes the sort throw, with NullPointerException whenever no language fails with IndexOutOfBoundsException |
| VideoFileSelectorService.BestFileSource | src/main/java/self/me/matchday/api/service/video/VideoFileSelectorService.java:61-94 | the source chosen is one of the event's sources, the one at the chosen position; no sources throw IndexOutOfBoundsException, and every other failure, a null competition or team included, is BestIndex's |
| VideoFileSelectorService.BestIsLeast | src/main/java/self/me/matchday/api/service/video/VideoFileSelectorService.java:61-94 | the chosen source compares, without throwing, no greater than every other source and strictly less than each source before it |
| VideoFileSelectorService.BestHasEarliestResolution | src/main/java/self/me/matchday/api/service/video/VideoFileSelectorService.java:68 | the chosen source has the earliest-declared resolution among the sources |
| VideoFileSelectorService.CompetitionLanguagePreferred | src/main/java/self/me/matchday/api/service/video/VideoFileSelectorService.java:70-73 | among sources of the earliest resolution, when one has a language of the competition's country, so does the chosen one |
| VideoFileSelectorService.WithoutLanguagesFirstEarliest | src/main/java/self/me/matchday/api/service/video/VideoFileSelectorService.java:66-93 | with no country locales and no teams, the first source of the earliest resolution is chosen |
| VideoFileSelectorService.PackKeys | src/main/java/self/me/matchday/api/service/video/VideoFileSelectorService.java:118-132 | the key of a pack is whether an enabled plugin accepts its first part, false sorting first |
| VideoFileSelectorService.PlaylistFiles | src/main/java/self/me/matchday/api/service/video/VideoFileSelectorService.java:114-134 | the first pack after the stable sort, and IndexOutOfBoundsException without packs |
| VideoFileSelectorService.PlaylistFilesPrefersUnserved | src/main/java/self/me/matchday/api/service/video/VideoFileSelectorService.java:128-132 | as written, a pack no enabled plugin can serve is chosen whenever there is one |
| VideoFileSelectorService.PlaylistFilesAsWrittenExample | src/main/java/self/me/matchday/api/service/video/VideoFileSelectorService.java:128-132 | of a served pack and a pack without parts, the pack without parts is chosen |
| VideoFileSelectorService.ServedFirstKeys | src/main/java/self/me/matchday/api/service/video/VideoFileSelectorService.java:118-132 | the corrected key puts a pack an enabled plugin serves first |
| VideoFileSelectorService.PlaylistFilesCorrected | src/main/java/self/me/matchday/api/service/video/VideoFileSelectorService.java:114-134 | corrected, the first pack an enabled plugin can serve, else the first pack |
| VideoFileSelectorService.PlaylistFilesCorrectedPrefersServed | src/main/java/self/me/matchday/api/service/video/VideoFileSelectorService.java:114-134 | corrected, the chosen pack is the first served pack whenever one is served, and the first pack otherwise |
| VideoFileSelectorService.LanguageBit | src/main/java/self/me/matchday/api/service/video/VideoFileSelectorService.java:96-105 | the language part of the sort key is 0 or 1 |
| VideoFileSelectorService.LanguageFailure | src/main/java/self/me/matchday/api/service/video/VideoFileSelectorService.java:47-73 | no failure exactly when every source the sort compares has a primary language it can compute |
| VideoFileSelectorService.SourceKeys | src/main/java/self/me/matchday/api/service/video/VideoFileSelectorService.java:66-91 | one sort key per source, in list order, each that source's key |
| EventService.IsValidEvent | src/main/java/self/me/matchday/api/service/EventService.java:144-178 | true exactly when the event is present and has a non-empty title, a competition with a non-empty name, and a date after the first moment of 1970 |
| EventService.Merged | src/main/java/self/me/matchday/api/service/EventService.java:128-130 | the event keeps its ID, title, competition and date; its file sources are its own plus those of the event stored under its ID, and nothing else |
| EventService.Saved | src/main/java/self/me/matchday/api/service/EventService.java:124-136 | an invalid event leaves the repository unchanged; a valid one is stored, merged, under its ID; every other ID keeps its entry |
| EventService.SaveKeepsStoredSources | src/main/java/self/me/matchday/api/service/EventService.java:128-132 | saving never loses a file source already stored under the event's ID |
| EventService.SaveIdempotent | src/main/java/self/me/matchday/api/service/EventService.java:124-136 | saving the same event twice gives the same repository as saving it once |
| EventService.SavedIsValid | src/main/java/self/me/matchday/api/service/EventService.java:124-136 | the event stored by a valid save passes the validation itself |
| EventService.EventService.constructor | src/main/java/self/me/matchday/api/service/EventService.java:50-55 | the service starts on the given repository contents |
| EventService.EventService.SaveEvent | src/main/java/self/me/matchday/api/service/EventService.java:124-136 | the new repository is Saved of the old one, so the lemmas above hold of it |
| EventService.Insert | src/main/java/self/me/matchday/api/service/EventService.java:69 | the list with the new event added, as a multiset |
| EventService.InsertSorted | src/main/java/self/me/matchday/api/service/EventService.java:69 | inserting into a list sorted by a total preorder keeps it sorted |
| EventService.Sort | src/main/java/self/me/matchday/api/service/EventService.java:69 | the sorted list is a permutation of the input |
| EventService.SortSorted | src/main/java/self/me/matchday/api/service/EventService.java:69 | the sorted list is ordered by the comparator when it is a total preorder |
| EventService.FetchAllEvents | src/main/java/self/me/matchday/api/service/EventService.java:61-74 | empty exactly when the repository holds no event; otherwise a permutation of all events |
| EventService.FetchAllEventsSorted | src/main/java/self/me/matchday/api/service/EventService.java:61-74 | a non-empty listing is ordered by the sorter |
| StreamDelayAdviceService.Recorded | src/main/java/self/me/matchday/api/service/video/StreamDelayAdviceService.java:102-120 | a reached server records its measured milliseconds; failing to open records the 3000 ms default; failing to connect records the connection's timeout |
| StreamDelayAdviceService.ComputeWaitMillis | src/main/java/self/me/matchday/api/service/video/StreamDelayAdviceService.java:147-153 | the wait stays within the long range, and is steps times ping plus the overhead whenever that fits; the stream count is not used |
| StreamDelayAdviceService.StreamDelayAdviceService.constructor | src/main/java/self/me/matchday/api/service/video/StreamDelayAdviceService.java:44-56 | the delay index starts empty, with the configured default ping and FFmpeg start-up times |
| StreamDelayAdviceService.StreamDelayAdviceService.PingTime | src/main/java/self/me/matchday/api/service/video/StreamDelayAdviceService.java:128-136 | the default without a stream or without an enabled plugin for the first stream's URL; otherwise that plugin's recorded ping, or the default when none is recorded |
| StreamDelayAdviceService.StreamDelayAdviceService.DelayAdvice | src/main/java/self/me/matchday/api/service/video/StreamDelayAdviceService.java:58-73 | fails with IllegalStateException exactly in ERROR status; 0 for a ready stream; otherwise COMPLETED.compareTo(status) times the ping time plus FFmpeg's start-up time |
| StreamDelayAdviceService.StreamDelayAdviceService.AdviceIgnoresLaterStreams | src/main/java/self/me/matchday/api/service/video/StreamDelayAdviceService.java:128-136 | streams after the first do not change the advice |
| StreamDelayAdviceService.StreamDelayAdviceService.CompletedWaitsStartUp | src/main/java/self/me/matchday/api/service/video/StreamDelayAdviceService.java:66-71 | a completed stream that is not ready waits exactly FFmpeg's start-up time |
| StreamDelayAdviceService.StreamDelayAdviceService.PingFileServer | src/main/java/self/me/matchday/api/service/video/StreamDelayAdviceService.java:102-120 | the plugin's recorded time is set to its ping outcome, and no other entry changes |
| StreamDelayAdviceService.StreamDelayAdviceService.PingActiveFileServers | src/main/java/self/me/matchday/api/service/video/StreamDelayAdviceService.java:92-95 | every enabled plugin gets its ping outcome recorded; the entries of plugins not enabled are unchanged |
| ArtworkService.ValidateImage | src/main/java/net/tomasbot/matchday/api/service/ArtworkService.java:198-208 | succeeds exactly when height and width both lie within the configured minimum and maximum; otherwise InvalidArtworkException |
| ArtworkService.ArtworkExtension | src/main/java/net/tomasbot/matchday/api/service/ArtworkService.java:186-196 | InvalidArtworkException for a null content type or one without a match; a result is a non-empty run of word characters |
| ArtworkService.ExtensionOfImageType | src/main/java/net/tomasbot/matchday/api/service/ArtworkService.java:48-196 | "image/" followed by a word subtype and a non-word character (or the end) gives exactly that subtype |
| ArtworkService.SvgExtension | src/main/java/net/tomasbot/matchday/api/service/ArtworkService.java:48-196 | "image/svg+xml" gives "svg" |
| ArtworkService.NonImageTypeThrows | src/main/java/net/tomasbot/matchday/api/service/ArtworkService.java:186-196 | a content type without "image/" throws InvalidArtworkException |
| ArtworkService.FirstPartner | src/main/java/net/tomasbot/matchday/api/service/ArtworkService.java:149-156 | the inner loop's result: none exactly when no colour of the second list contrasts with c1, else a contrasting colour from that list |
| ArtworkService.FirstContrasting | src/main/java/net/tomasbot/matchday/api/service/ArtworkService.java:146-157 | none exactly when no pair contrasts; otherwise a contrasting pair drawn from the two lists |
| ArtworkService.ContrastingColorPair | src/main/java/net/tomasbot/matchday/api/service/ArtworkService.java:140-160 | null exactly when either list is null or empty; a contrasting pair whenever one exists; the two first colours when none does |
| ArtworkService.GetContrastingColorPair | src/main/java/net/tomasbot/matchday/api/service/ArtworkService.java:140-160 | the nested loops return ContrastingColorPair |
| ArtworkService.PartnerOf | src/main/java/net/tomasbot/matchday/api/service/ArtworkService.java:149-156 | the inner loop returns FirstPartner |
| ArtworkService.DeleteFromDisk | src/main/java/net/tomasbot/matchday/api/service/ArtworkService.java:274-282 | nothing changes for a null artwork or a missing file; for a present file IOException exactly when the delete fails; on success only the artwork's file is gone from the disk |
| ArtworkService.ById | src/main/java/net/tomasbot/matchday/api/service/ArtworkService.java:224-228 | the artwork with the ID from the collection, none exactly when no artwork has it |
| ArtworkService.SelectedIn | src/main/java/net/tomasbot/matchday/api/service/ArtworkService.java:233 | the selected artwork exists exactly when the index is in range, and is the one at the index |
| ArtworkService.SelectionFollowsArtwork | src/main/java/net/tomasbot/matchday/api/service/ArtworkService.java:240-242 | after removing another artwork, the selected artwork's new index still selects it |
| ArtworkService.DeleteArtworkFromCollection | src/main/java/net/tomasbot/matchday/api/service/ArtworkService.java:230-246 | an IOException on disk changes nothing; otherwise the artwork is removed; deleting the selected artwork selects index 0; deleting another keeps the same artwork selected; a null artwork with a selection throws NullPointerException |
| ArtworkService.DeleteArtworkById | src/main/java/net/tomasbot/matchday/api/service/ArtworkService.java:224-228 | an unknown ID leaves the collection as it was, and throws NullPointerException when an artwork is selected; a known ID deletes that artwork as deleteArtworkFromCollection does: IOException changes nothing, otherwise the artwork is removed, deleting the selected one selects index 0 and deleting another keeps the same artwork selected |
| PageEvaluator.Lookup | src/main/java/self/me/matchday/plugin/fileserver/filefox/PageEvaluator.java:112 | the LinkedHashMap's value under a key: present exactly when some entry has that name, and then that entry's value |
| PageEvaluator.Put | src/main/java/self/me/matchday/plugin/fileserver/filefox/PageEvaluator.java:117 | LinkedHashMap.put grows the map by one exactly when the key is new |
| PageEvaluator.PutLookup | src/main/java/self/me/matchday/plugin/fileserver/filefox/PageEvaluator.java:117 | after put, the key maps to the new value and every other key keeps its value |
| PageEvaluator.PutDistinct | src/main/java/self/me/matchday/plugin/fileserver/filefox/PageEvaluator.java:117 | put keeps the keys distinct |
| PageEvaluator.LastValue | src/main/java/self/me/matchday/plugin/fileserver/filefox/PageEvaluator.java:113-118 | the value of the last input of a name; none exactly when no input has the name |
| PageEvaluator.PutAllIsLastValue | src/main/java/self/me/matchday/plugin/fileserver/filefox/PageEvaluator.java:113-118 | the map built from the inputs has distinct keys, and each name maps to the value of its last input |
| PageEvaluator.GetHiddenQueryParams | src/main/java/self/me/matchday/plugin/fileserver/filefox/PageEvaluator.java:107-120 | IndexOutOfBoundsException exactly when the page has no form; otherwise the first form's hidden inputs put into the map in order |
| PageEvaluator.HiddenQueryParams | src/main/java/self/me/matchday/plugin/fileserver/filefox/PageEvaluator.java:107-120 | fails exactly when the page has no form, with IndexOutOfBoundsException |
| PageEvaluator.HiddenFormUri | src/main/java/self/me/matchday/plugin/fileserver/filefox/PageEvaluator.java:122-132 | IllegalArgumentException without a form; URISyntaxException for an action that is not a URI; otherwise the first form's action |
| PageEvaluator.FirstDirectDownloadLink | src/main/java/self/me/matchday/plugin/fileserver/filefox/PageEvaluator.java:137-155 | the index of the first link whose href the direct-download pattern finds; none exactly when no link qualifies |
| PageEvaluator.DirectDownloadUrl | src/main/java/self/me/matchday/plugin/fileserver/filefox/PageEvaluator.java:134-150 | none exactly when no link qualifies; otherwise the first qualifying href when it is a valid URL, and a failure when it is not |
| PageEvaluator.DownloadLimitMatch | src/main/java/self/me/matchday/plugin/fileserver/filefox/PageEvaluator.java:69-85 | a match exactly when the download-limit pattern is found in the page text |
| PageEvaluator.PageType | src/main/java/self/me/matchday/plugin/fileserver/filefox/PageEvaluator.java:63-105 | a malformed direct-download URL throws before any rule is tried; the first copy never yields a profile page; the rule order is stated by the lemmas below |
| PageEvaluator.GetFileFoxPage | src/main/java/self/me/matchday/plugin/fileserver/filefox/PageEvaluator.java:55-61 | a page is always returned, and never a profile page |
| PageEvaluator.MalformedLinkHidesPage | src/main/java/self/me/matchday/plugin/fileserver/filefox/PageEvaluator.java:55-74 | a malformed first direct-download link makes every page a bare invalid page, even a login page |
| PageEvaluator.LoginFirst | src/main/java/self/me/matchday/plugin/fileserver/filefox/PageEvaluator.java:76-78 | the logged-out text in the navigation bar gives a login page whatever else the page holds |
| PageEvaluator.PremiumLandingFromFirstForm | src/main/java/self/me/matchday/plugin/fileserver/filefox/PageEvaluator.java:87-96 | a premium landing page needs a link button and none of the earlier rules; it carries the first form's action and, per name, the last hidden input's value |
| PageEvaluator.DirectDownloadIsFirstLink | src/main/java/self/me/matchday/plugin/fileserver/filefox/PageEvaluator.java:97-102 | a direct-download page carries the first qualifying link's href, and arises only when no earlier rule applied |
| NetPageEvaluator.ParseProfilePage | src/main/java/net/tomasbot/matchday/plugin/fileserver/filefox/PageEvaluator.java:169-184 | with a digit run in the traffic bar, a premium profile whose traffic is that number over 100, failing with NumberFormatException when it exceeds int; without one, a free profile; both carry the page text |
| NetPageEvaluator.PageType | src/main/java/net/tomasbot/matchday/plugin/fileserver/filefox/PageEvaluator.java:64-116 | a malformed direct-download URL throws before any rule is tried; the rule order is stated by the lemmas below |
| NetPageEvaluator.GetFileFoxPage | src/main/java/net/tomasbot/matchday/plugin/fileserver/filefox/PageEvaluator.java:56-62 | a profile page is returned only when the page text holds the profile text |
| NetPageEvaluator.Legacy | src/main/java/net/tomasbot/matchday/plugin/fileserver/filefox/PageEvaluator.java:56-116 | maps a later page to what the first copy returns: texts dropped, and never a profile page |
| NetPageEvaluator.AgreesWithFirstCopy | src/main/java/net/tomasbot/matchday/plugin/fileserver/filefox/PageEvaluator.java:56-116 | on every page, the later copy's page with its texts dropped and a profile read as invalid equals the first copy's page |
| NetPageEvaluator.ProfileIsLastResort | src/main/java/net/tomasbot/matchday/plugin/fileserver/filefox/PageEvaluator.java:110-112 | a profile page needs the profile text, no direct-download link and none of the earlier rules |
| EventMetadataParser.ParseGroup | src/main/java/self/me/matchday/plugin/datasource/bloggerparser/EventMetadataParser.java:101-102 | Integer.parseInt of a group: a value exactly when the group is present and parses, and then the parsed value |
| EventMetadataParser.FixYear | src/main/java/self/me/matchday/plugin/datasource/bloggerparser/EventMetadataParser.java:158-170 | years below 100 get 2000 added; other years are kept |
| EventMetadataParser.FixYearSettles | src/main/java/self/me/matchday/plugin/datasource/bloggerparser/EventMetadataParser.java:158-170 | a two-digit year becomes a year from 2000 to 2099, and fixing a fixed year changes nothing |
| EventMetadataParser.ParseCompetitionData | src/main/java/self/me/matchday/plugin/datasource/bloggerparser/EventMetadataParser.java:83-93 | InvalidBloggerPostException exactly when the competition pattern finds nothing; otherwise the trimmed match |
| EventMetadataParser.ParseSeasonData | src/main/java/self/me/matchday/plugin/datasource/bloggerparser/EventMetadataParser.java:95-109 | the default season without a match or when a year does not parse; otherwise both fixed years; a match with fewer than two groups throws IndexOutOfBounds |
| EventMetadataParser.ParseFixtureData | src/main/java/self/me/matchday/plugin/datasource/bloggerparser/EventMetadataParser.java:111-130 | the empty fixture without a match; group 1 as the title when present; otherwise group 3 with group 4 removed, parsed as the number; a missing group throws |
| EventMetadataParser.ParseDateData | src/main/java/self/me/matchday/plugin/datasource/bloggerparser/EventMetadataParser.java:132-150 | the parsed date of group 1 whenever the result is not the current time |
| EventMetadataParser.GetEvent | src/main/java/self/me/matchday/plugin/datasource/bloggerparser/EventMetadataParser.java:47-81 | InvalidBloggerPostException without a competition; otherwise the four parsed parts; a Match of the trimmed team groups exactly when the teams pattern finds, else a Highlight titled with the whole title |
| EventMetadataParser.WellFormedTitleIsMatch | src/main/java/self/me/matchday/plugin/datasource/bloggerparser/EventMetadataParser.java:51-72 | a title every pattern reads gives a Match between the trimmed team names |
| GalatamanBloggerSource.ParseRelease | main/java/self/me/matchday/feed/blogger/galataman/GalatamanEventFileSource.java:261-289 | a resolution other than R_SD only when its pattern matches the whole value, and no earlier-listed pattern does; R_SD otherwise |
| GalatamanBloggerSource.ReleaseWithLineBreak | main/java/self/me/matchday/feed/blogger/galataman/GalatamanEventFileSource.java:263-268 | a value containing a line terminator is always R_SD, since ".*" does not cross it |
| GalatamanBloggerSource.ReleaseExamples | main/java/self/me/matchday/feed/blogger/galataman/GalatamanEventFileSource.java:263-267 | "720i" reads as 720p, and "4K" as R_SD because the patterns are case-sensitive |
| GalatamanBloggerSource.Config | main/java/self/me/matchday/feed/blogger/galataman/GalatamanEventFileSource.java:151-214 | a bad tuple throws GalatamanPostParseException wrapping InvalidMetadataException; an unknown key throws it bare; RELEASE is read by parseResolution |
| GalatamanBloggerSource.Build | main/java/self/me/matchday/feed/blogger/galataman/GalatamanEventFileSource.java:132-307 | fails exactly when the metadata does not parse, with one of the two exceptions; keeps the URLs; languages are non-blank; video and audio items are trimmed and non-empty |
| GalatamanBloggerSource.BuildResolution | main/java/self/me/matchday/feed/blogger/galataman/GalatamanEventFileSource.java:208-209 | the resolution is parseResolution of the last RELEASE value, and null without one |
| GalatamanBloggerSource.BuildLanguages | main/java/self/me/matchday/feed/blogger/galataman/GalatamanEventFileSource.java:192-230 | the languages are those of the LANGUAGE and COMMENTARY items, in item order |
| GalatamanBloggerSource.NewEventFileSource | main/java/self/me/matchday/feed/blogger/galataman/GalatamanEventFileSource.java:132-142 | copies the caller's URL list, then builds: the result equals Build of the list's contents |
| GalatamanFeedMatchSource.Config | main/java/self/me/matchday/feed/galataman/GalatamanMatchSource.java:191-254 | the same two exceptions; RELEASE is kept as the cleaned text |
| GalatamanFeedMatchSource.Build | main/java/self/me/matchday/feed/galataman/GalatamanMatchSource.java:169-182 | fails exactly when the metadata does not parse; keeps the raw metadata and the URLs; languages non-blank; video and audio items trimmed and non-empty |
| GalatamanFeedMatchSource.BuildRelease | main/java/self/me/matchday/feed/galataman/GalatamanMatchSource.java:248-250 | the release is the last RELEASE item's cleaned value, and null without one |
| GalatamanFeedMatchSource.BuildLanguages | main/java/self/me/matchday/feed/galataman/GalatamanMatchSource.java:232-234 | the languages are those of the LANGUAGE and COMMENTARY items, in item order |
| GalatamanFeedMatchSource.NewMatchSource | main/java/self/me/matchday/feed/galataman/GalatamanMatchSource.java:169-182 | copies the caller's URL list, then builds: the result equals Build of the list's contents |
| GalatamanLegacyMatchSource.GalatamanMatchSource.constructor | main/java/self/me/matchday/feed/Galataman/GalatamanMatchSource.java:45-60 | the source holds the metadata, the parsed fields and the builder's list |
| GalatamanLegacyMatchSource.NewMatchSource | main/java/self/me/matchday/feed/Galataman/GalatamanMatchSource.java:143-156 | fails exactly when the metadata does not parse; otherwise keeps the raw metadata and the caller's list itself, not a copy |
| GalatamanLegacyMatchSource.AddAfterBuild | main/java/self/me/matchday/feed/Galataman/GalatamanMatchSource.java:59-147 | a URL the caller adds to its list afterwards shows up in the built source's URLs |
| GalatamanPostParts.UrlRules | main/java/self/me/matchday/feed/galataman/GalatamanPost.java:118-133 | the feed posts read headers and video links with the post's tests, and look for no part labels |
| GalatamanPostParts.Hrefs | main/java/self/me/matchday/feed/galataman/GalatamanPost.java:132 | one URL per link, in order, each the link's href |
| GalatamanPostParts.WrapStop | main/java/self/me/matchday/feed/galataman/GalatamanPost.java:151-170 | a walk that stopped throws GalatamanPostParseException wrapping the cause, whether MalformedURLException or another RuntimeException; a walk that finished yields its sources |
| GalatamanPostParts.UrlSourcesFollowHeaders | main/java/self/me/matchday/feed/galataman/GalatamanPost.java:113-149 | on success, one source per header from the start element on, in order, each built from its header's HTML and the URLs of the links up to the next header; on failure, the first header whose URLs do not parse or whose builder rejects it, with that exception wrapped |
| GalatamanPostParts.FeedPostBuilder.constructor | main/java/self/me/matchday/feed/galataman/GalatamanPost.java:96-102 | the builder starts with the post's fields and no sources |
| GalatamanPostParts.FeedPostBuilder.ParseMatchSources | main/java/self/me/matchday/feed/galataman/GalatamanPost.java:105-171 | the sources the walk made are appended; an exception is returned exactly when the walk throws, and it is that exception |
| GalatamanBloggerPost.Rules | main/java/self/me/matchday/feed/blogger/galataman/GalatamanPost.java:129-141 | a part identifier is tested before a video link, with the post's header and link tests |
| GalatamanBloggerPost.Settle | main/java/self/me/matchday/feed/blogger/galataman/GalatamanPost.java:159-178 | fails exactly when a URL was malformed, with the wrapped exception; any other exception is swallowed and the sources made so far are kept |
| GalatamanBloggerPost.GalatamanPostBuilder.constructor | main/java/self/me/matchday/feed/blogger/galataman/GalatamanPost.java:99-101 | the builder starts with the post's fields and no sources |
| GalatamanBloggerPost.GalatamanPostBuilder.ParseMatchSources | main/java/self/me/matchday/feed/blogger/galataman/GalatamanPost.java:106-179 | the sources the walk made are appended; an exception is returned exactly when a URL is malformed |
| GalatamanBloggerPost.PostOf | main/java/self/me/matchday/feed/blogger/galataman/GalatamanPost.java:63-205 | a failing reader's exception escapes; a malformed URL throws; otherwise the post holds the fields, the walk's sources and the event the data parser reads from the title and publication time, failing exactly when that parser fails |
| GalatamanBloggerPost.BuildPost | main/java/self/me/matchday/feed/blogger/galataman/GalatamanPost.java:186-205 | build() returns PostOf |
| GalatamanBloggerPost.SourcesFollowHeaders | main/java/self/me/matchday/feed/blogger/galataman/GalatamanPost.java:113-157 | the sources are built in order from the headers from the start element on, each from its header's HTML and its links' files; when they are fewer than the headers, the next header's metadata was rejected |
| GalatamanBloggerPost.FailsOnMalformedUrl | main/java/self/me/matchday/feed/blogger/galataman/GalatamanPost.java:138-167 | parseMatchSources throws exactly when some header has a link whose URL does not parse and every header before it was built |
| GalatamanBloggerPost.BuilderNeverMalformed | main/java/self/me/matchday/feed/blogger/galataman/GalatamanPost.java:148-149 | the source builder never throws MalformedURLException, so only a link can |
| GalatamanBloggerPost.NoStartNoSources | main/java/self/me/matchday/feed/blogger/galataman/GalatamanPost.java:113-116 | a post without a start element has no sources |
| GalatamanFeedPost.SeasonCases | main/java/self/me/matchday/feed/galataman/GalatamanPost.java:274-307 | a four-digit run v gives (v - 1, v); else "xx/yy" gives (2000 + xx, 2000 + yy); else the publication year and the next; the catch is never reached |
| GalatamanFeedPost.SeasonOfFourDigits | main/java/self/me/matchday/feed/galataman/GalatamanPost.java:287-290 | the four-digit case: the first four-digit run v gives (v - 1, v) |
| GalatamanFeedPost.SeasonOfSplitYears | main/java/self/me/matchday/feed/galataman/GalatamanPost.java:292-296 | the "xx/yy" case: (2000 + xx, 2000 + yy) |
| GalatamanFeedPost.SeasonExample | main/java/self/me/matchday/feed/galataman/GalatamanPost.java:287-290 | "2019/20" reads as the season (2018, 2019), since the four-digit test comes first |
| GalatamanFeedPost.LastOfKind | main/java/self/me/matchday/feed/galataman/GalatamanPost.java:247-260 | the index of the last part of a kind, none exactly when no part is of that kind |
| GalatamanFeedPost.ReadPartsFail | main/java/self/me/matchday/feed/galataman/GalatamanPost.java:247-260 | the forEach throws exactly when some part's branch throws, with DateTimeParseException or IndexOutOfBoundsException |
| GalatamanFeedPost.ReadPartsLast | main/java/self/me/matchday/feed/galataman/GalatamanPost.java:247-260 | after a forEach that did not throw, the fixture, date and teams are those of the last part of each kind; what no part sets keeps its value |
| GalatamanFeedPost.MatchOfTitle | main/java/self/me/matchday/feed/galataman/GalatamanPost.java:231-272 | fails exactly when the title has no parts or some part's branch throws; otherwise the match ID text is the title, the competition is part 0 with its season, and the fixture, date and teams come from the last part of each kind, null when none |
| GalatamanFeedPost.MatchDataParser.constructor | main/java/self/me/matchday/feed/galataman/GalatamanPost.java:231-235 | the title split on " - ", every field null |
| GalatamanFeedPost.MatchDataParser.ParseCompetitionData | main/java/self/me/matchday/feed/galataman/GalatamanPost.java:274-307 | sets the competition to the whole part and the season to the one read from it; the other fields stay |
| GalatamanFeedPost.MatchDataParser.ReadOne | main/java/self/me/matchday/feed/galataman/GalatamanPost.java:248-259 | one forEach step: the new fields are ReadPart of the old ones, or its exception; competition and season stay |
| GalatamanFeedPost.MatchDataParser.Parse | main/java/self/me/matchday/feed/galataman/GalatamanPost.java:242-272 | parse() returns ParseFrom of the starting state |
| GalatamanFeedPost.ReadPartsStop | main/java/self/me/matchday/feed/galataman/GalatamanPost.java:247-260 | a part that throws ends the forEach with its exception |
| GalatamanFeedPost.ReadPartsStopped | main/java/self/me/matchday/feed/galataman/GalatamanPost.java:247-260 | once the forEach has thrown, later parts change nothing |
| GalatamanFeedPost.NewMatch | main/java/self/me/matchday/feed/galataman/GalatamanPost.java:62-272 | constructing the parser and calling parse() gives MatchOf the title |
| GalatamanFeedPost.PostOf | main/java/self/me/matchday/feed/galataman/GalatamanPost.java:55-199 | a failing reader's exception escapes; a failing walk's wrapped exception escapes; otherwise the post holds the fields, the walk's sources and the title's match, failing exactly when the match parse fails |
| GalatamanFeedPost.BuildPost | main/java/self/me/matchday/feed/galataman/GalatamanPost.java:178-199 | build() returns PostOf |
| GalatamanFeedPost.SourcesFollowHeaders | main/java/self/me/matchday/feed/galataman/GalatamanPost.java:105-171 | the walk succeeds exactly when every header from the start element on has valid URLs and metadata that parses; then one source per header, holding its HTML and its links' URLs |
| GalatamanLegacyPost.PostOf | main/java/self/me/matchday/feed/Galataman/GalatamanPost.java:41-206 | a failing reader's exception escapes; otherwise succeeds exactly when the walk does, and fails with the walk's wrapped exception; the post holds the fields and the walk's sources |
| GalatamanLegacyPost.BuildPost | main/java/self/me/matchday/feed/Galataman/GalatamanPost.java:185-206 | build() returns PostOf |
| GalatamanLegacyPost.SourcesFollowHeaders | main/java/self/me/matchday/feed/Galataman/GalatamanPost.java:104-151 | one source per header from the start element on, each the processor's source for its header's HTML and the URLs of its video links |
| GalatamanLegacyPost.NoStartNoSources | main/java/self/me/matchday/feed/Galataman/GalatamanPost.java:113-117 | a post whose content has no start element has no sources |
| GalatamanMetadata.StripTags | main/java/self/me/matchday/feed/blogger/galataman/GalatamanEventFileSource.java:298-301 | replaceAll("<[^>]*>", "") never lengthens the text; its other properties are the lemmas below |
| GalatamanMetadata.StripTagsNoClose | main/java/self/me/matchday/feed/blogger/galataman/GalatamanEventFileSource.java:300 | a text without '>' has no tag to remove |
| GalatamanMetadata.StripTagsTagFree | main/java/self/me/matchday/feed/blogger/galataman/GalatamanEventFileSource.java:300 | after the replacement no '<' is followed by a '>' |
| GalatamanMetadata.StripTagsKeepsTagFree | main/java/self/me/matchday/feed/blogger/galataman/GalatamanEventFileSource.java:300 | a tag-free text is left unchanged |
| GalatamanMetadata.CleanTagFree | main/java/self/me/matchday/feed/blogger/galataman/GalatamanEventFileSource.java:298-301 | a cleaned value has no tag left and no blank at either end |
| GalatamanMetadata.CleanIdempotent | main/java/self/me/matchday/feed/blogger/galataman/GalatamanEventFileSource.java:298-301 | cleaning a cleaned value changes nothing |
| GalatamanMetadata.NewMetadataTuple | main/java/self/me/matchday/feed/blogger/galataman/GalatamanEventFileSource.java:159-165 | a tuple exactly when the item splits into two parts, and then those parts; otherwise the caller's exception |
| GalatamanMetadata.TupleRoundTrip | main/java/self/me/matchday/feed/blogger/galataman/GalatamanEventFileSource.java:159-165 | a key and a non-empty value around the delimiter's only match give that tuple back |
| GalatamanMetadata.NonEmpty | main/java/self/me/matchday/feed/blogger/galataman/GalatamanEventFileSource.java:156 | the filter never lengthens the list |
| GalatamanMetadata.NonEmptyMembers | main/java/self/me/matchday/feed/blogger/galataman/GalatamanEventFileSource.java:156 | the filter keeps exactly the non-empty items |
| GalatamanMetadata.Tuples | main/java/self/me/matchday/feed/blogger/galataman/GalatamanEventFileSource.java:151-169 | all items' tuples, as many as items, or the exception of a bad item |
| GalatamanMetadata.TuplesOk | main/java/self/me/matchday/feed/blogger/galataman/GalatamanEventFileSource.java:151-169 | the tuples exist exactly when every item splits in two |
| GalatamanMetadata.TuplesInOrder | main/java/self/me/matchday/feed/blogger/galataman/GalatamanEventFileSource.java:151-169 | the i-th tuple is the i-th item's tuple |
| GalatamanMetadata.DropBlank | main/java/self/me/matchday/feed/blogger/galataman/GalatamanEventFileSource.java:222-230 | removeIf never lengthens the list |
| GalatamanMetadata.DropBlankMembers | main/java/self/me/matchday/feed/blogger/galataman/GalatamanEventFileSource.java:227 | an entry survives exactly when it is not blank, and it is kept untrimmed |
| GalatamanMetadata.TrimmedItemsMembers | main/java/self/me/matchday/feed/blogger/galataman/GalatamanEventFileSource.java:244-250 | every item is trimmed and non-empty, and every non-blank field gives one |
| GalatamanMetadata.TrimmedItemsStep | main/java/self/me/matchday/feed/blogger/galataman/GalatamanEventFileSource.java:244-250 | one more field appends its trimmed text when that is not empty |
| GalatamanMetadata.ParseAvData | main/java/self/me/matchday/feed/blogger/galataman/GalatamanEventFileSource.java:238-253 | the loop returns the split fields trimmed, with the empty ones dropped, in order |
| GalatamanMetadata.ParseResolution | src/main/java/self/me/matchday/plugin/datasource/galataman/GManFileSourceMetadataParser.java:269-282 | what Resolution.fromString finds when isResolution holds, R_SD otherwise |
| GalatamanMetadata.KeyOfSome | main/java/self/me/matchday/feed/blogger/galataman/GalatamanEventFileSource.java:185-213 | the case the switch selects is the one written with the key text |
| GalatamanMetadata.KeyOfNone | main/java/self/me/matchday/feed/blogger/galataman/GalatamanEventFileSource.java:211-212 | the default branch is taken exactly when no case is written with the key text |
| GalatamanMetadata.SetField | main/java/self/me/matchday/feed/blogger/galataman/GalatamanEventFileSource.java:185-210 | one case of the switch: languages, video and audio lists are extended only by their own keys, with the parsed items |
| GalatamanMetadata.ApplyItem | main/java/self/me/matchday/feed/blogger/galataman/GalatamanEventFileSource.java:177-214 | parseDataItem fails exactly when the key takes the default branch, with the unknown-key exception |
| GalatamanMetadata.AllKnownIff | main/java/self/me/matchday/feed/blogger/galataman/GalatamanEventFileSource.java:185-213 | AllKnown holds exactly when no item takes the default branch |
| GalatamanMetadata.ApplyAllFails | main/java/self/me/matchday/feed/blogger/galataman/GalatamanEventFileSource.java:139-141 | applying the items fails exactly when one has a key the switch does not name |
| GalatamanMetadata.ApplyAllFailsUnknown | main/java/self/me/matchday/feed/blogger/galataman/GalatamanEventFileSource.java:139-141 | the same, stated against AllKnown |
| GalatamanMetadata.ApplyAllError | main/java/self/me/matchday/feed/blogger/galataman/GalatamanEventFileSource.java:139-212 | the items fail only with the unknown-key exception |
| GalatamanMetadata.ApplyAllLanguages | main/java/self/me/matchday/feed/blogger/galataman/GalatamanEventFileSource.java:192-194 | the languages are the old ones followed by each LANGUAGE and COMMENTARY item's languages, in item order |
| GalatamanMetadata.ApplyItemLanguages | main/java/self/me/matchday/feed/blogger/galataman/GalatamanEventFileSource.java:192-194 | one item appends its own languages and nothing else |
| GalatamanMetadata.LanguagesOfNotBlank | main/java/self/me/matchday/feed/blogger/galataman/GalatamanEventFileSource.java:227 | every language the items contribute is non-blank |
| GalatamanMetadata.SetFieldTidy | main/java/self/me/matchday/feed/blogger/galataman/GalatamanEventFileSource.java:185-210 | one case of the switch keeps the lists free of blank entries |
| GalatamanMetadata.ApplyAllTidy | main/java/self/me/matchday/feed/blogger/galataman/GalatamanEventFileSource.java:139-141 | applying all items keeps the lists free of blank entries |
| GalatamanMetadata.ParseFieldsError | main/java/self/me/matchday/feed/blogger/galataman/GalatamanEventFileSource.java:132-142 | a builder fails only with its bad-tuple or its unknown-key exception |
| GalatamanMetadata.ParseFieldsTidy | main/java/self/me/matchday/feed/blogger/galataman/GalatamanEventFileSource.java:132-142 | what a builder collects has no blank language and no blank or untrimmed audio or video item |
| GalatamanMetadata.LastRelease | main/java/self/me/matchday/feed/blogger/galataman/GalatamanEventFileSource.java:208-209 | the cleaned value of the last RELEASE item; none exactly when there is no RELEASE item |
| GalatamanMetadata.ApplyAllRelease | main/java/self/me/matchday/feed/blogger/galataman/GalatamanEventFileSource.java:208-209 | the release is the builder's reading of the last RELEASE value, or unchanged without one |
| GalatamanMetadata.ApplyItemRelease | main/java/self/me/matchday/feed/blogger/galataman/GalatamanEventFileSource.java:208-209 | one item sets the release exactly when it is a RELEASE item |
| GalatamanMetadata.ParseFieldsRelease | main/java/self/me/matchday/feed/blogger/galataman/GalatamanEventFileSource.java:132-209 | a built source's release is the reading of the last RELEASE value, or null |
| GalatamanMetadata.SourceBuilder.constructor | main/java/self/me/matchday/feed/blogger/galataman/GalatamanEventFileSource.java:120-129 | the builder starts with the metadata text and every field empty or null |
| GalatamanMetadata.SourceBuilder.SetKeyField | main/java/self/me/matchday/feed/blogger/galataman/GalatamanEventFileSource.java:185-210 | the field the key names is set or extended as SetField says |
| GalatamanMetadata.SourceBuilder.ParseDataItem | main/java/self/me/matchday/feed/blogger/galataman/GalatamanEventFileSource.java:177-214 | the fields become ApplyItem of the old ones; an unknown key throws and changes nothing |
| GalatamanMetadata.SourceBuilder.ParseDataItems | main/java/self/me/matchday/feed/blogger/galataman/GalatamanEventFileSource.java:139-141 | the forEach leaves ApplyAll of the old fields, or fails with its exception |
| GalatamanMetadata.NewSourceBuilder | main/java/self/me/matchday/feed/blogger/galataman/GalatamanEventFileSource.java:132-142 | every item is turned into a tuple before the first is applied, so a bad tuple leaves no builder; then each applies in order: the result is ParseFields |
| GalatamanMetadata.TupleAt | main/java/self/me/matchday/feed/blogger/galataman/GalatamanEventFileSource.java:151-169 | when the tuples exist, the one at position i is the i-th item split in two |
| GalatamanMetadata.KeyInNames | main/java/self/me/matchday/feed/blogger/galataman/GalatamanEventFileSource.java:185-213 | a case the switch selects is among the cases and is written with the key text |
| GalatamanMetadata.ApplyAllStep | main/java/self/me/matchday/feed/blogger/galataman/GalatamanEventFileSource.java:139-141 | one more item is that item applied to what the earlier items gave |
| GalatamanMetadata.ApplyAllFailed | main/java/self/me/matchday/feed/blogger/galataman/GalatamanEventFileSource.java:139-141 | once an item throws, the whole forEach throws that exception |
| GManEventFileSourceParser.StartOfSourceFinds | main/java/self/me/matchday/feed/blogger/galataman/GManEventFileSourceParser.java:399 | START_OF_SOURCE ("__*") finds in a text exactly when the text holds an underscore |
| GManEventFileSourceParser.KvHead | main/java/self/me/matchday/feed/blogger/galataman/GManEventFileSourceParser.java:404-405 | the optional ']' and the closing tag with its colon end after the place the match starts and within the text |
| GManEventFileSourceParser.Rules | main/java/self/me/matchday/feed/blogger/galataman/GManEventFileSourceParser.java:413-419 | the walk reads headers by isSourceData (a b element whose text holds "Channel") and video links by isVideoLink (an a element whose href the ICD URL pattern finds in) |
| GManEventFileSourceParser.KvRoundTrip | main/java/self/me/matchday/feed/blogger/galataman/GManEventFileSourceParser.java:334-344 | a key and a non-empty value free of ']' and '<', joined by the key/value delimiter, split back into exactly that tuple |
| GManEventFileSourceParser.LanguagesHaveNoDelimiter | main/java/self/me/matchday/feed/blogger/galataman/GManEventFileSourceParser.java:264-271 | no language in the parsed list holds a digit, '.', '*', space or '/' |
| GManEventFileSourceParser.NewSource | main/java/self/me/matchday/feed/blogger/galataman/GManEventFileSourceParser.java:113-114 | the source carries the metadata parser's channel, source, languages, video and audio data, duration, size and resolution and the files unchanged; it fails exactly when the metadata parser throws, with InvalidMetadataException |
| GManEventFileSourceParser.Settle | main/java/self/me/matchday/feed/blogger/galataman/GManEventFileSourceParser.java:72-127 | a walk stopped by a malformed URL keeps the sources made so far; any other exception escapes unchanged |
| GManEventFileSourceParser.ParseMatchSources | main/java/self/me/matchday/feed/blogger/galataman/GManEventFileSourceParser.java:70-128 | the loop over the tokens yields the sources of EventFileSources: the walk from the first element holding an underscore, settled as the try/catch does |
| GManEventFileSourceParser.EventFileSourcesFail | main/java/self/me/matchday/feed/blogger/galataman/GManEventFileSourceParser.java:78-127 | the only exception that leaves the constructor is InvalidMetadataException, and a document with no start token yields no sources |
| GManEventFileSourceParser.ScanStops | main/java/self/me/matchday/feed/blogger/galataman/GManEventFileSourceParser.java:81-127 | a walk stops only on a malformed URL or on invalid metadata |
| GManEventFileSourceParser.SourcesFollowHeaders | main/java/self/me/matchday/feed/blogger/galataman/GManEventFileSourceParser.java:81-122 | the sources are one per header element in document order, at most as many as the headers and all of them when the walk is not stopped; each holds the video links after its own header and that header's metadata |
| GManEventFileSourceParser.FilesAreVideoLinks | main/java/self/me/matchday/feed/blogger/galataman/GManEventFileSourceParser.java:91-111 | every file of a source is the href of a video link of its segment, and is labelled DEFAULT when no part identifier precedes it there |
| PluginGManEventFileSourceParser.Rules | src/main/java/self/me/matchday/plugin/datasource/galataman/GManEventFileSourceParser.java:135-161 | headers are b elements whose text holds "Channel"; video links are a elements (any case) whose href parses as a URL the file server service calls a video link |
| PluginGManEventFileSourceParser.LinksAreValid | src/main/java/self/me/matchday/plugin/datasource/galataman/GManEventFileSourceParser.java:104-114 | every link the walk takes has a URL that parses, so the MalformedURLException handler at line 112 never runs |
| PluginGManEventFileSourceParser.CorrectedSourceFiles | src/main/java/self/me/matchday/plugin/datasource/galataman/GManEventFileSourceParser.java:90-111 | with the files added, a source is createFileSource's exception or its source holding exactly one EventFile per link |
| PluginGManEventFileSourceParser.Finish | src/main/java/self/me/matchday/plugin/datasource/galataman/GManEventFileSourceParser.java:73-127 | parseEventSources returns the sources of a walk that was not stopped and lets every other exception escape |
| PluginGManEventFileSourceParser.ParseEventSources | src/main/java/self/me/matchday/plugin/datasource/galataman/GManEventFileSourceParser.java:73-127 | the loop yields EventFileSources, the walk with each link's file added to its source (the intended reading of line 111) |
| PluginGManEventFileSourceParser.AsWrittenSourceFiles | src/main/java/self/me/matchday/plugin/datasource/galataman/GManEventFileSourceParser.java:90-111 | as written, a source is createFileSource's exception, NullPointerException when it has a link (its file list is null), or a source with no files |
| PluginGManEventFileSourceParser.AsWrittenLosesFiles | src/main/java/self/me/matchday/plugin/datasource/galataman/GManEventFileSourceParser.java:90-126 | as written, a post parses only when no source has a video link, and then no source carries a file |
| PluginGManEventFileSourceParser.AsWrittenThrowsAtFirstLink | src/main/java/self/me/matchday/plugin/datasource/galataman/GManEventFileSourceParser.java:90-111 | as written, a first source whose metadata parses and which has a video link makes the whole parse throw NullPointerException |
| PluginGManEventFileSourceParser.SourcesHoldTheirFiles | src/main/java/self/me/matchday/plugin/datasource/galataman/GManEventFileSourceParser.java:85-124 | with the files added, the sources are one per header in document order, each its header's createFileSource holding one EventFile per video link of its segment, in order, labelled with the last part identifier before it |
| PluginGManEventFileSourceParser.OnlyMetadataExceptions | src/main/java/self/me/matchday/plugin/datasource/galataman/GManEventFileSourceParser.java:85-126 | with the files added, the only exception that escapes is a header's createFileSource exception |
| PluginGManEventFileSourceParser.NoStartNoSources | src/main/java/self/me/matchday/plugin/datasource/galataman/GManEventFileSourceParser.java:82-126 | a post with no start-of-metadata element has no sources |
| PluginZKFEventFileSourceParser.NextLinkIsFirst | src/main/java/self/me/matchday/plugin/datasource/zkfootball/ZKFEventFileSourceParser.java:138-153 | the link found is the first "a" (any case) among the following siblings and no sibling before it is a part identifier or a link; none is found exactly when a part identifier comes first or there is no "a" |
| PluginZKFEventFileSourceParser.GetNextLink | src/main/java/self/me/matchday/plugin/datasource/zkfootball/ZKFEventFileSourceParser.java:138-153 | the loop over the siblings returns NextLink, the first "a" before any part identifier |
| PluginZKFEventFileSourceParser.Insert | src/main/java/self/me/matchday/plugin/datasource/zkfootball/ZKFEventFileSourceParser.java:83-107 | TreeSet.add on a sorted set: the set gains the file exactly when no file of the same part order is already in it, and nothing else changes |
| PluginZKFEventFileSourceParser.InsertSorted | src/main/java/self/me/matchday/plugin/datasource/zkfootball/ZKFEventFileSourceParser.java:83-107 | adding to the set keeps it strictly ordered by part, so at most one file per part |
| PluginZKFEventFileSourceParser.Step | src/main/java/self/me/matchday/plugin/datasource/zkfootball/ZKFEventFileSourceParser.java:88-126 | one bold element: a part identifier adds its next video link's file to the set; a metadata element makes a source from its spans, with (as written) NullPointerException on the null file list or (intended) the set's files added, and clears the set; anything else changes nothing |
| PluginZKFEventFileSourceParser.ParseStep | src/main/java/self/me/matchday/plugin/datasource/zkfootball/ZKFEventFileSourceParser.java:86-127 | a parse that completes has parsed all but its last element and then read that one |
| PluginZKFEventFileSourceParser.StepAsWritten | src/main/java/self/me/matchday/plugin/datasource/zkfootball/ZKFEventFileSourceParser.java:115-126 | as written, only an element that leaves the sources as they were does not throw |
| PluginZKFEventFileSourceParser.AsWrittenMakesNoSources | src/main/java/self/me/matchday/plugin/datasource/zkfootball/ZKFEventFileSourceParser.java:74-130 | as written, a post that parses makes no source at all |
| PluginZKFEventFileSourceParser.AsWrittenThrows | src/main/java/self/me/matchday/plugin/datasource/zkfootball/ZKFEventFileSourceParser.java:118-121 | as written, the first metadata element whose source parses makes the whole parse throw NullPointerException |
| PluginZKFEventFileSourceParser.ParseFailLater | src/main/java/self/me/matchday/plugin/datasource/zkfootball/ZKFEventFileSourceParser.java:86-127 | an exception thrown on a prefix is thrown, unchanged, by every longer parse |
| PluginZKFEventFileSourceParser.SourcesHoldSortedFiles | src/main/java/self/me/matchday/plugin/datasource/zkfootball/ZKFEventFileSourceParser.java:74-130 | with the files added, the parse makes one source per metadata element, and every source holds files ordered by part with at most one per part |
| PluginZKFEventFileSourceParser.StepSorted | src/main/java/self/me/matchday/plugin/datasource/zkfootball/ZKFEventFileSourceParser.java:88-126 | one element with the files added keeps the gathered files sorted, and a new source holds sorted files |
| PluginZKFEventFileSourceParser.SortedSourcesGrow | src/main/java/self/me/matchday/plugin/datasource/zkfootball/ZKFEventFileSourceParser.java:118-123 | the sources of a longer prefix all hold sorted files when those of the shorter prefix and the new ones do |
| PluginZKFEventFileSourceParser.OnlyMetadataExceptions | src/main/java/self/me/matchday/plugin/datasource/zkfootball/ZKFEventFileSourceParser.java:74-130 | with the files added, the only exception that escapes is a metadata element's createFileSource exception |
| PluginZKFEventFileSourceParser.TakeBold | src/main/java/self/me/matchday/plugin/datasource/zkfootball/ZKFEventFileSourceParser.java:88-126 | one bold element, with the files added to the source: the new set and sources are Step's |
| PluginZKFEventFileSourceParser.ParseEventFileSources | src/main/java/self/me/matchday/plugin/datasource/zkfootball/ZKFEventFileSourceParser.java:74-130 | the forEach over the bold elements yields EventFileSources, the fold of Step with the files added |
| ZKFMetadata.CleanMetadata | src/main/java/self/me/matchday/plugin/datasource/zkfootball/ZKFMetadataParser.java:209-211 | a cleaned value is no longer than the text and starts and ends with a character above the blank |
| ZKFMetadata.CleanKeepsClean | src/main/java/self/me/matchday/plugin/datasource/zkfootball/ZKFMetadataParser.java:209-211 | a value with no "&nbsp;" and no blank at either end is left as it is |
| ZKFMetadata.LanguageOf | src/main/java/self/me/matchday/plugin/datasource/zkfootball/ZKFMetadataParser.java:170-175 | the language is the cleaned text with its first letter upper-cased and the rest unchanged; an empty cleaned text throws IndexOutOfBounds from substring(0, 1) |
| ZKFMetadata.BitrateOf | src/main/java/self/me/matchday/plugin/datasource/zkfootball/ZKFMetadataParser.java:104-129 | the result is never 0 unless the default bitrate is 0, since the finally block replaces a zero |
| ZKFMetadata.BitrateCases | src/main/java/self/me/matchday/plugin/datasource/zkfootball/ZKFMetadataParser.java:104-129 | a digit run n that fits an int gives n * 1,000,000 under the megabit pattern, else n * 1,000 under the kilobit pattern; with no digit run, an oversized one (NumberFormatException caught) or no unit the field keeps its value; a zero then becomes the default |
| ZKFMetadata.BitrateInLong | src/main/java/self/me/matchday/plugin/datasource/zkfootball/ZKFMetadataParser.java:110-115 | the bitrate stays a non-negative long: a digit run is at most 2,147,483,647, so even the megabit product fits |
| ZKFMetadata.FormatPart | src/main/java/self/me/matchday/plugin/datasource/zkfootball/ZKFMetadataParser.java:142-157 | one part: "4096x2160" sets R_4k; a part the resolution pattern finds in sets Resolution.fromString of it; else a frame rate sets its number and throws NumberFormatException exactly when the group does not fit an int; else a container sets the part upper-cased |
| ZKFMetadata.ReadFormat | src/main/java/self/me/matchday/plugin/datasource/zkfootball/ZKFMetadataParser.java:136-163 | the loop over the space-split parts yields Format, its first exception caught by the catch block |
| ZKFMetadata.FormatPartsStop | src/main/java/self/me/matchday/plugin/datasource/zkfootball/ZKFMetadataParser.java:141-162 | the catch keeps the fields as they were when the exception was thrown: all parts read when none throws, otherwise the parts before the first that throws |
| ZKFMetadata.FormatPrefixFirstFails | src/main/java/self/me/matchday/plugin/datasource/zkfootball/ZKFMetadataParser.java:141-158 | once the first part throws, every longer prefix has thrown |
| ZKFMetadata.FormatPrefixFailsOn | src/main/java/self/me/matchday/plugin/datasource/zkfootball/ZKFMetadataParser.java:141-158 | once the first part throws, the prefix of any given length has thrown |
| ZKFMetadata.FormatPrefixShift | src/main/java/self/me/matchday/plugin/datasource/zkfootball/ZKFMetadataParser.java:141-158 | a loop whose first part does not throw goes on from that part's fields |
| ZKFMetadata.FormatPrefixShiftAt | src/main/java/self/me/matchday/plugin/datasource/zkfootball/ZKFMetadataParser.java:141-158 | a loop whose first part does not throw goes on from that part's fields, for one prefix length |
| ZKFMetadata.UltraHdFormat | src/main/java/self/me/matchday/plugin/datasource/zkfootball/ZKFMetadataParser.java:136-163 | a format text of one part holding "4096x2160" sets R_4k and nothing else |
| ZKFTokens.KindOf | main/java/self/me/matchday/feed/blogger/zkfootball/ZKFEventFileSourceParser.java:77-97 | a token is a separator exactly when "___*" is found in its text; a part token exactly when it is no separator and its HTML is a part identifier; a link token only when it is a video link ("a" with an href that parses and that the ICD pattern finds); a metadata token only when it is a span the metadata selector finds something in |
| ZKFTokens.MetadataCount | main/java/self/me/matchday/feed/blogger/zkfootball/ZKFEventFileSourceParser.java:90-96 | the number of metadata containers is at most the number of tokens |
| ZKFMetadataParser.ItemOf | src/main/java/self/me/matchday/plugin/datasource/zkfootball/ZKFMetadataParser.java:63-96 | one pass of the forEach: an unknown tag changes nothing; the only exceptions are NullPointerException (a missing neighbour) and StringIndexOutOfBoundsException (an empty language); only the LANGUAGE case touches the languages and only the CHANNEL case the channel |
| ZKFMetadataParser.Tagged | src/main/java/self/me/matchday/plugin/datasource/zkfootball/ZKFMetadataParser.java:66-95 | the elements kept are exactly those whose text is one of the five tags |
| ZKFMetadataParser.LanguagesInOrder | src/main/java/self/me/matchday/plugin/datasource/zkfootball/ZKFMetadataParser.java:71-75 | a parse that completes has appended every language element's language, in order, after the ones there before |
| ZKFMetadataParser.UnknownTagsIgnored | src/main/java/self/me/matchday/plugin/datasource/zkfootball/ZKFMetadataParser.java:63-96 | the elements with other texts can be left out without changing the result or the exception |
| ZKFMetadataParser.ItemsLast | src/main/java/self/me/matchday/plugin/datasource/zkfootball/ZKFMetadataParser.java:63-96 | a run throws when its prefix throws and otherwise ends with its last element applied |
| ZKFMetadataParser.ItemsFailures | src/main/java/self/me/matchday/plugin/datasource/zkfootball/ZKFMetadataParser.java:61-97 | parsing the metadata throws only NullPointerException or StringIndexOutOfBoundsException |
| ZKFMetadataParser.MetadataParser.constructor | src/main/java/self/me/matchday/plugin/datasource/zkfootball/ZKFMetadataParser.java:52-54 | a new parser starts with every field unset and no languages |
| ZKFMetadataParser.MetadataParser.ParseItem | src/main/java/self/me/matchday/plugin/datasource/zkfootball/ZKFMetadataParser.java:65-95 | the parser's fields become ItemOf of the old ones, or the call throws ItemOf's exception |
| ZKFMetadataParser.MetadataParser.ParseChannel | src/main/java/self/me/matchday/plugin/datasource/zkfootball/ZKFMetadataParser.java:67-69 | the CHANNEL case: the fields become ItemOf of the old ones, the channel the cleaned sibling text, or NullPointerException |
| ZKFMetadataParser.MetadataParser.ParseLanguage | src/main/java/self/me/matchday/plugin/datasource/zkfootball/ZKFMetadataParser.java:71-75 | the LANGUAGE case: the fields become ItemOf of the old ones, the language of the next bold element appended, or its exception |
| ZKFMetadataParser.MetadataParser.ParseFormat | src/main/java/self/me/matchday/plugin/datasource/zkfootball/ZKFMetadataParser.java:77-81 | the FORMAT case: the fields become ItemOf of the old ones, the sibling text read into resolution, frame rate and container |
| ZKFMetadataParser.MetadataParser.ParseBitrate | src/main/java/self/me/matchday/plugin/datasource/zkfootball/ZKFMetadataParser.java:83-88 | the BITRATE case: the fields become ItemOf of the old ones, the bitrate read from the trimmed sibling text |
| ZKFMetadataParser.MetadataParser.ParseSize | src/main/java/self/me/matchday/plugin/datasource/zkfootball/ZKFMetadataParser.java:90-94 | the SIZE case: the fields become ItemOf of the old ones, the file size read from the cleaned sibling text |
| ZKFMetadataParser.MetadataParser.ParseEventMetadata | src/main/java/self/me/matchday/plugin/datasource/zkfootball/ZKFMetadataParser.java:61-97 | the forEach leaves the fields at Items of the old ones, or throws Items's exception |
| ZKFMetadataParser.ItemsFailFrom | src/main/java/self/me/matchday/plugin/datasource/zkfootball/ZKFMetadataParser.java:63-96 | an element that throws makes the whole run throw that exception |
| ZKFMetadataParser.ItemsFailLater | src/main/java/self/me/matchday/plugin/datasource/zkfootball/ZKFMetadataParser.java:63-96 | a prefix that throws makes the whole run throw the same exception |
| ZKFMetadataParser.FileSourceOf | src/main/java/self/me/matchday/plugin/datasource/zkfootball/ZKFMetadataParser.java:36-50 | the source carries the parser's channel, languages, resolution, frame rate, container, bitrate and file size, an empty set of files and no id |
| ZKFMetadataParser.CreateFileSource | src/main/java/self/me/matchday/plugin/datasource/zkfootball/ZKFMetadataParser.java:36-50 | createFileSource yields FileSourceFor: the source of the parsed fields, whose languages are those of the language elements in order, with no files, or the parser's exception |
| ZKFFileSourceMetadataParser.ChannelOf | src/main/java/self/me/matchday/plugin/datasource/zkfootball/ZKFFileSourceMetadataParser.java:131-134 | the channel is the empty text when no node follows the element |
| ZKFFileSourceMetadataParser.LanguagesText | src/main/java/self/me/matchday/plugin/datasource/zkfootball/ZKFFileSourceMetadataParser.java:142-162 | with no element after the tag the NullPointerException is caught and the text is empty; otherwise it is the capitalised language of its bold text, or the uncaught StringIndexOutOfBoundsException of an empty one |
| ZKFFileSourceMetadataParser.ItemOf | src/main/java/self/me/matchday/plugin/datasource/zkfootball/ZKFFileSourceMetadataParser.java:95-122 | one pass: an unknown tag changes nothing; the CHANNEL case sets the channel to ChannelOf; the only exceptions are NullPointerException, and then only for a format, bitrate or size element with no node after it, and StringIndexOutOfBoundsException; only the BITRATE case sets the bitrate, read from zero |
| ZKFFileSourceMetadataParser.LastTagged | src/main/java/self/me/matchday/plugin/datasource/zkfootball/ZKFFileSourceMetadataParser.java:95-122 | the element found is one of the elements and carries the tag; none is found exactly when no element carries it |
| ZKFFileSourceMetadataParser.LastChannelWins | src/main/java/self/me/matchday/plugin/datasource/zkfootball/ZKFFileSourceMetadataParser.java:100-102 | a parse that completes holds the channel of the last channel element, or the old one when there is none |
| ZKFFileSourceMetadataParser.LastLanguageWins | src/main/java/self/me/matchday/plugin/datasource/zkfootball/ZKFFileSourceMetadataParser.java:104-106 | the languages text is that of the last language element, replacing rather than adding to earlier ones, or the old one when there is none |
| ZKFFileSourceMetadataParser.LastBitrateWins | src/main/java/self/me/matchday/plugin/datasource/zkfootball/ZKFFileSourceMetadataParser.java:113-115 | the bitrate is that of the last bitrate element read from zero, whatever came before, or the old one when there is none |
| ZKFFileSourceMetadataParser.ItemsStep | src/main/java/self/me/matchday/plugin/datasource/zkfootball/ZKFFileSourceMetadataParser.java:95-122 | a run that completes completed on all but its last element and then read that one |
| ZKFFileSourceMetadataParser.ItemsFailures | src/main/java/self/me/matchday/plugin/datasource/zkfootball/ZKFFileSourceMetadataParser.java:93-123 | parsing throws only StringIndexOutOfBoundsException or NullPointerException, the latter only when a format, bitrate or size element has no node after it |
| ZKFFileSourceMetadataParser.ZKFFileMetadata.constructor | src/main/java/self/me/matchday/plugin/datasource/zkfootball/ZKFFileSourceMetadataParser.java:82-86 | a new metadata object starts with every field unset |
| ZKFFileSourceMetadataParser.ZKFFileMetadata.ParseItem | src/main/java/self/me/matchday/plugin/datasource/zkfootball/ZKFFileSourceMetadataParser.java:96-121 | the fields become ItemOf of the old ones, or the call throws ItemOf's exception |
| ZKFFileSourceMetadataParser.ZKFFileMetadata.ParseLanguages | src/main/java/self/me/matchday/plugin/datasource/zkfootball/ZKFFileSourceMetadataParser.java:104-106 | the LANGUAGE case: the languages text replaces the field, as ItemOf says |
| ZKFFileSourceMetadataParser.ZKFFileMetadata.ParseFormat | src/main/java/self/me/matchday/plugin/datasource/zkfootball/ZKFFileSourceMetadataParser.java:108-111 | the FORMAT case: the node after the element read into resolution, frame rate and container, as ItemOf says |
| ZKFFileSourceMetadataParser.ZKFFileMetadata.ParseBitrate | src/main/java/self/me/matchday/plugin/datasource/zkfootball/ZKFFileSourceMetadataParser.java:113-115 | the BITRATE case: the trimmed node text read as a bitrate from zero, as ItemOf says |
| ZKFFileSourceMetadataParser.ZKFFileMetadata.ParseSize | src/main/java/self/me/matchday/plugin/datasource/zkfootball/ZKFFileSourceMetadataParser.java:117-120 | the SIZE case: the cleaned node text read as a file size, as ItemOf says |
| ZKFFileSourceMetadataParser.ZKFFileMetadata.ParseEventMetadata | src/main/java/self/me/matchday/plugin/datasource/zkfootball/ZKFFileSourceMetadataParser.java:93-123 | the forEach leaves the fields at Items of the old ones, or throws Items's exception |
| ZKFFileSourceMetadataParser.ItemsFailFrom | src/main/java/self/me/matchday/plugin/datasource/zkfootball/ZKFFileSourceMetadataParser.java:95-122 | an element that throws makes the whole run throw that exception |
| ZKFFileSourceMetadataParser.ItemsFailLater | src/main/java/self/me/matchday/plugin/datasource/zkfootball/ZKFFileSourceMetadataParser.java:95-122 | a prefix that throws makes the whole run throw the same exception |
| ZKFFileSourceMetadataParser.FileSourceOf | src/main/java/self/me/matchday/plugin/datasource/zkfootball/ZKFFileSourceMetadataParser.java:56-68 | the source carries the channel, file size, bitrate, resolution, frame rate and container; its language list holds the one joined text when there is one; it has no files and no id |
| ZKFFileSourceMetadataParser.CreateFileSource | src/main/java/self/me/matchday/plugin/datasource/zkfootball/ZKFFileSourceMetadataParser.java:56-68 | createFileSource yields FileSourceFor, a source holding at most one languages entry, or the parser's exception |
| ZKFFeedMetadata.FrameRateFrom | src/main/java/self/me/matchday/feed/blogger/zkfootball/ZKFEventFileSourceParser.java:314-315 | group 1 of "(\\d+)(fps)" at its first find is a non-empty run of digits |
| ZKFFeedMetadata.FrameRateOfDigits | src/main/java/self/me/matchday/feed/blogger/zkfootball/ZKFEventFileSourceParser.java:314-315 | a digit run directly followed by "fps", in any case, is the group found |
| ZKFFeedMetadata.FeedBitrateBounds | src/main/java/self/me/matchday/feed/blogger/zkfootball/ZKFEventFileSourceParser.java:200-225 | with DEFAULT_BITRATE 4,000,000 the bitrate read is never zero and fits a long |
| ZKFFeedMetadata.ItemOf | src/main/java/self/me/matchday/feed/blogger/zkfootball/ZKFEventFileSourceParser.java:158-191 | one pass: any text other than the five tags throws InvalidBloggerPostException; the only other exceptions are NullPointerException and StringIndexOutOfBoundsException; the LANGUAGE case appends exactly one language, the capitalised bold text, and only it touches the list; only the BITRATE case changes the bitrate, read on top of the field's old value |
| ZKFFeedMetadata.OnlyTagsParse | src/main/java/self/me/matchday/feed/blogger/zkfootball/ZKFEventFileSourceParser.java:158-192 | a parse that completes saw only the five tags |
| ZKFFeedMetadata.LanguagesInOrder | src/main/java/self/me/matchday/feed/blogger/zkfootball/ZKFEventFileSourceParser.java:165-169 | a parse that completes has appended every language element's language, in order |
| ZKFFeedMetadata.ItemsFailures | src/main/java/self/me/matchday/feed/blogger/zkfootball/ZKFEventFileSourceParser.java:156-193 | the parse throws only NullPointerException, StringIndexOutOfBoundsException or InvalidBloggerPostException |
| ZKFFeedMetadata.BitrateCounted | src/main/java/self/me/matchday/feed/blogger/zkfootball/ZKFEventFileSourceParser.java:177-182 | a bitrate element anywhere in the list is counted |
| ZKFFeedMetadata.BitrateStep | src/main/java/self/me/matchday/feed/blogger/zkfootball/ZKFEventFileSourceParser.java:177-182 | a bitrate element leaves a positive bitrate that fits a long; any other element keeps it |
| ZKFFeedMetadata.BitrateInRange | src/main/java/self/me/matchday/feed/blogger/zkfootball/ZKFEventFileSourceParser.java:156-193 | the bitrate always fits a long, and once set or once a bitrate element is read it is never zero again |
| ZKFFeedMetadata.BitrateStaysSet | src/main/java/self/me/matchday/feed/blogger/zkfootball/ZKFEventFileSourceParser.java:156-193 | a parse that completes over a bitrate element ends with a positive bitrate |
| ZKFFeedMetadata.ItemsStep | src/main/java/self/me/matchday/feed/blogger/zkfootball/ZKFEventFileSourceParser.java:158-192 | a run that completes completed on all but its last element and then read that one |
| ZKFFeedMetadata.FeedMetadataParser.constructor | src/main/java/self/me/matchday/feed/blogger/zkfootball/ZKFEventFileSourceParser.java:141-143 | a new parser starts with every field unset and no languages |
| ZKFFeedMetadata.FeedMetadataParser.ParseItem | src/main/java/self/me/matchday/feed/blogger/zkfootball/ZKFEventFileSourceParser.java:160-191 | the fields become ItemOf of the old ones, or the call throws ItemOf's exception |
| ZKFFeedMetadata.FeedMetadataParser.ParseLanguage | src/main/java/self/me/matchday/feed/blogger/zkfootball/ZKFEventFileSourceParser.java:165-169 | the LANGUAGE case, as ItemOf says: the language of the next bold element appended |
| ZKFFeedMetadata.FeedMetadataParser.ParseFormat | src/main/java/self/me/matchday/feed/blogger/zkfootball/ZKFEventFileSourceParser.java:171-175 | the FORMAT case, as ItemOf says: the node after the element read into resolution, frame rate and container |
| ZKFFeedMetadata.FeedMetadataParser.ParseChannel | src/main/java/self/me/matchday/feed/blogger/zkfootball/ZKFEventFileSourceParser.java:161-163 | the CHANNEL case, as ItemOf says: the cleaned node text is the channel |
| ZKFFeedMetadata.FeedMetadataParser.ParseBitrate | src/main/java/self/me/matchday/feed/blogger/zkfootball/ZKFEventFileSourceParser.java:177-182 | the BITRATE case, as ItemOf says: the trimmed node text read as a bitrate |
| ZKFFeedMetadata.FeedMetadataParser.ParseSize | src/main/java/self/me/matchday/feed/blogger/zkfootball/ZKFEventFileSourceParser.java:184-187 | the SIZE case, as ItemOf says: the cleaned node text is the approximate size |
| ZKFFeedMetadata.FeedMetadataParser.ParseEventMetadata | src/main/java/self/me/matchday/feed/blogger/zkfootball/ZKFEventFileSourceParser.java:156-193 | the forEach leaves the fields at Items of the old ones, or throws Items's exception |
| ZKFFeedMetadata.ItemsFailFrom | src/main/java/self/me/matchday/feed/blogger/zkfootball/ZKFEventFileSourceParser.java:158-192 | an element that throws makes the whole run throw that exception |
| ZKFFeedMetadata.ItemsFailLater | src/main/java/self/me/matchday/feed/blogger/zkfootball/ZKFEventFileSourceParser.java:158-192 | a prefix that throws makes the whole run throw the same exception |
| ZKFFeedMetadata.SourceOf | src/main/java/self/me/matchday/feed/blogger/zkfootball/ZKFEventFileSourceParser.java:108-121 | the source carries the parser's channel, size text, languages, resolution, container, frame rate and bitrate, and no files yet |
| ZKFFeedMetadata.FromElements | src/main/java/self/me/matchday/feed/blogger/zkfootball/ZKFEventFileSourceParser.java:145-149 | fromElements yields SourceFor: a source whose languages are those of the language elements in order, with no files, built only when every element carried one of the five tags; or the parser's exception |
| ZKFFeedSourceParser.Step | src/main/java/self/me/matchday/feed/blogger/zkfootball/ZKFEventFileSourceParser.java:78-97 | one token keeps the sources found before it; only a metadata container adds one, exactly one, and only it can throw, with fromElements's exception |
| ZKFFeedSourceParser.WalkStep | src/main/java/self/me/matchday/feed/blogger/zkfootball/ZKFEventFileSourceParser.java:75-99 | a walk that completes walked all but its last token and then took that one |
| ZKFFeedSourceParser.SourcePerMetadata | src/main/java/self/me/matchday/feed/blogger/zkfootball/ZKFEventFileSourceParser.java:68-104 | a walk keeps the sources before it and adds exactly one per metadata container |
| ZKFFeedSourceParser.WalkFailures | src/main/java/self/me/matchday/feed/blogger/zkfootball/ZKFEventFileSourceParser.java:68-104 | a walk throws only when fromElements throws for one of its metadata containers, and then with that exception |
| ZKFFeedSourceParser.GroupFilesGrow | src/main/java/self/me/matchday/feed/blogger/zkfootball/ZKFEventFileSourceParser.java:72-99 | the list of files is never cleared within a group, so later sources of the group hold the files of earlier ones |
| ZKFFeedSourceParser.SourceHoldsGroupFiles | src/main/java/self/me/matchday/feed/blogger/zkfootball/ZKFEventFileSourceParser.java:90-97 | a source made at a metadata container holds exactly the group's files gathered so far, and the list is kept |
| ZKFFeedSourceParser.WalkSpan | src/main/java/self/me/matchday/feed/blogger/zkfootball/ZKFEventFileSourceParser.java:65-104 | the nested loops over one span's children yield the sources of Walk from a fresh group, or its exception |
| ZKFFeedSourceParser.WalkGroup | src/main/java/self/me/matchday/feed/blogger/zkfootball/ZKFEventFileSourceParser.java:75-99 | the inner loop stops at the end or at a separator, having walked the tokens before it with the sources Walk finds there, or throws Walk's exception |
| ZKFFeedSourceParser.Advance | src/main/java/self/me/matchday/feed/blogger/zkfootball/ZKFEventFileSourceParser.java:75-99 | one token of the inner loop is the walk one token further; when it throws the whole walk throws the same |
| ZKFFeedSourceParser.WalkPrefixStep | src/main/java/self/me/matchday/feed/blogger/zkfootball/ZKFEventFileSourceParser.java:75-99 | the walk up to token j + 1 is the walk up to j followed by token j |
| ZKFFeedSourceParser.GroupStep | src/main/java/self/me/matchday/feed/blogger/zkfootball/ZKFEventFileSourceParser.java:75-99 | one token of a group is the walk one token further, and a throw there is the whole walk's |
| ZKFFeedSourceParser.SeparatorStep | src/main/java/self/me/matchday/feed/blogger/zkfootball/ZKFEventFileSourceParser.java:71-103 | a separator starts a new group, with DEFAULT and no files, keeping the sources found so far |
| ZKFFeedSourceParser.TakeToken | src/main/java/self/me/matchday/feed/blogger/zkfootball/ZKFEventFileSourceParser.java:78-97 | the body of the inner loop is Step: a part label, a link file or a metadata source |
| ZKFFeedSourceParser.WalkFailLater | src/main/java/self/me/matchday/feed/blogger/zkfootball/ZKFEventFileSourceParser.java:68-104 | a prefix that throws makes the whole walk throw the same exception |
| ZKFFeedSourceParser.ParseEventFileSources | src/main/java/self/me/matchday/feed/blogger/zkfootball/ZKFEventFileSourceParser.java:55-106 | the forEach over the spans collects their sources in one list, as Spans says, or throws the first exception |
| ZKFFeedSourceParser.SpansFailLater | src/main/java/self/me/matchday/feed/blogger/zkfootball/ZKFEventFileSourceParser.java:62-105 | a prefix of spans that throws makes the whole parse throw the same exception |
| ZKFFeedSourceParser.SourcesOfPost | src/main/java/self/me/matchday/feed/blogger/zkfootball/ZKFEventFileSourceParser.java:55-106 | a parse that completes makes one source per metadata container of the post, after the sources there before |
| ZKFLegacySourceParser.CleanAll | main/java/self/me/matchday/feed/blogger/zkfootball/ZKFEventFileSourceParser.java:142-144 | each word cleaned, in order, one for one |
| ZKFLegacySourceParser.FormatData | main/java/self/me/matchday/feed/blogger/zkfootball/ZKFEventFileSourceParser.java:133-145 | the FORMAT case: the first space-separated word sets the resolution and every later word, cleaned, is appended to the video details; a text that splits into nothing throws ArrayIndexOutOfBoundsException, and only then |
| ZKFLegacySourceParser.FormatOneWord | main/java/self/me/matchday/feed/blogger/zkfootball/ZKFEventFileSourceParser.java:135-140 | a format text without a space sets the resolution from it and adds no details |
| ZKFLegacySourceParser.FormatTwoWords | main/java/self/me/matchday/feed/blogger/zkfootball/ZKFEventFileSourceParser.java:133-145 | two words: the first names the resolution, the second, cleaned, is the one detail added |
| ZKFLegacySourceParser.FormatOfSpaceThrows | main/java/self/me/matchday/feed/blogger/zkfootball/ZKFEventFileSourceParser.java:135-136 | a lone space splits into nothing and the FORMAT case throws ArrayIndexOutOfBoundsException |
| ZKFLegacySourceParser.AddVideoData | main/java/self/me/matchday/feed/blogger/zkfootball/ZKFEventFileSourceParser.java:142-144 | the loop appends every word after the first, cleaned, in order: one detail per word |
| ZKFLegacySourceParser.AddCleaned | main/java/self/me/matchday/feed/blogger/zkfootball/ZKFEventFileSourceParser.java:142-144 | one turn of the loop appends the next word, cleaned |
| ZKFLegacySourceParser.CleanAllStep | main/java/self/me/matchday/feed/blogger/zkfootball/ZKFEventFileSourceParser.java:142-144 | cleaning one more word appends that word, cleaned |
| ZKFLegacySourceParser.ItemOf | main/java/self/me/matchday/feed/blogger/zkfootball/ZKFEventFileSourceParser.java:118-158 | one pass: any other text throws InvalidBloggerPostException; the only other exceptions are NullPointerException and the index exceptions; the files are never touched; only LANGUAGE touches the languages; BITRATE appends its cleaned text to the video details; only FORMAT and BITRATE touch them |
| ZKFLegacySourceParser.OnlyTagsPopulate | main/java/self/me/matchday/feed/blogger/zkfootball/ZKFEventFileSourceParser.java:118-158 | a population that completes saw only the five tags |
| ZKFLegacySourceParser.TagKnownAt | main/java/self/me/matchday/feed/blogger/zkfootball/ZKFEventFileSourceParser.java:118-158 | the element at any position of a population that completes carries one of the five tags |
| ZKFLegacySourceParser.LastTagKnown | main/java/self/me/matchday/feed/blogger/zkfootball/ZKFEventFileSourceParser.java:155-156 | an element the population gets past carries one of the five tags |
| ZKFLegacySourceParser.PopulateKeepsFiles | main/java/self/me/matchday/feed/blogger/zkfootball/ZKFEventFileSourceParser.java:115-159 | populating a source keeps its files |
| ZKFLegacySourceParser.ItemsStep | main/java/self/me/matchday/feed/blogger/zkfootball/ZKFEventFileSourceParser.java:118-158 | a population that completes completed on all but its last element and then read that one |
| ZKFLegacySourceParser.LanguagesInOrder | main/java/self/me/matchday/feed/blogger/zkfootball/ZKFEventFileSourceParser.java:125-131 | a population that completes has appended every language element's language, in order |
| ZKFLegacySourceParser.ItemLanguages | main/java/self/me/matchday/feed/blogger/zkfootball/ZKFEventFileSourceParser.java:125-131 | one element adds to the languages exactly the language it carries, if it is a language element |
| ZKFLegacySourceParser.ItemsFailures | main/java/self/me/matchday/feed/blogger/zkfootball/ZKFEventFileSourceParser.java:115-159 | the population throws only NullPointerException, an index exception or InvalidBloggerPostException |
| ZKFLegacySourceParser.PopulateItem | main/java/self/me/matchday/feed/blogger/zkfootball/ZKFEventFileSourceParser.java:120-157 | one element of the forEach, with the format case's loop, is ItemOf |
| ZKFLegacySourceParser.PopulateFileSourceMetadata | main/java/self/me/matchday/feed/blogger/zkfootball/ZKFEventFileSourceParser.java:115-159 | the forEach leaves the source at Items of the old one, or throws Items's exception |
| ZKFLegacySourceParser.ItemsFailLater | main/java/self/me/matchday/feed/blogger/zkfootball/ZKFEventFileSourceParser.java:118-158 | a prefix that throws makes the whole run throw the same exception |
| ZKFLegacySourceParser.StepEffect | main/java/self/me/matchday/feed/blogger/zkfootball/ZKFEventFileSourceParser.java:78-97 | one token keeps the sources found so far; only a metadata container adds one, exactly one, holding the files of the source being filled, and starts a new source; only it can throw, with the exception of populating that source |
| ZKFLegacySourceParser.WalkStep | main/java/self/me/matchday/feed/blogger/zkfootball/ZKFEventFileSourceParser.java:77-99 | a walk that completes walked all but its last token and then took that one |
| ZKFLegacySourceParser.SourcePerMetadata | main/java/self/me/matchday/feed/blogger/zkfootball/ZKFEventFileSourceParser.java:68-105 | a walk keeps the sources before it and adds exactly one per metadata container |
| ZKFLegacySourceParser.FileCountAppend | main/java/self/me/matchday/feed/blogger/zkfootball/ZKFEventFileSourceParser.java:86-94 | the files of two lists of sources together are the files of each added up |
| ZKFLegacySourceParser.EachLinkOnce | main/java/self/me/matchday/feed/blogger/zkfootball/ZKFEventFileSourceParser.java:74-97 | without a separator every link lands in exactly one source: the files of the new sources and of the one being filled are those pending before plus one per link |
| ZKFLegacySourceParser.FileCountSplit | main/java/self/me/matchday/feed/blogger/zkfootball/ZKFEventFileSourceParser.java:86-94 | the files past a prefix of sources split where a longer prefix ends |
| ZKFLegacySourceParser.StepFiles | main/java/self/me/matchday/feed/blogger/zkfootball/ZKFEventFileSourceParser.java:78-97 | one token that is not a separator keeps the sources found so far and adds one file, to the source being filled, exactly when it is a link |
| ZKFLegacySourceParser.WalkFailures | main/java/self/me/matchday/feed/blogger/zkfootball/ZKFEventFileSourceParser.java:68-105 | a walk throws only NullPointerException, an index exception or InvalidBloggerPostException, and only when it has a metadata container |
| ZKFLegacySourceParser.TakeToken | main/java/self/me/matchday/feed/blogger/zkfootball/ZKFEventFileSourceParser.java:80-97 | the body of the inner loop is Step: a part label, a link file or a metadata source |
| ZKFLegacySourceParser.WalkGroup | main/java/self/me/matchday/feed/blogger/zkfootball/ZKFEventFileSourceParser.java:77-99 | the inner loop stops at the end or at a separator, having walked the tokens before it with the sources Walk finds there, or throws Walk's exception |
| ZKFLegacySourceParser.Advance | main/java/self/me/matchday/feed/blogger/zkfootball/ZKFEventFileSourceParser.java:77-99 | one token of the inner loop is the walk one token further; when it throws the whole walk throws the same |
| ZKFLegacySourceParser.WalkPrefixStep | main/java/self/me/matchday/feed/blogger/zkfootball/ZKFEventFileSourceParser.java:77-99 | the walk up to token j + 1 is the walk up to j followed by token j |
| ZKFLegacySourceParser.GroupStep | main/java/self/me/matchday/feed/blogger/zkfootball/ZKFEventFileSourceParser.java:77-99 | one token of a group is the walk one token further, and a throw there is the whole walk's |
| ZKFLegacySourceParser.SeparatorStep | main/java/self/me/matchday/feed/blogger/zkfootball/ZKFEventFileSourceParser.java:72-104 | a separator starts a new group, with DEFAULT and a new source, keeping the sources found so far |
| ZKFLegacySourceParser.WalkSpan | main/java/self/me/matchday/feed/blogger/zkfootball/ZKFEventFileSourceParser.java:65-105 | the nested loops over one span's children yield the sources of Walk from a fresh group, or its exception |
| ZKFLegacySourceParser.WalkFailLater | main/java/self/me/matchday/feed/blogger/zkfootball/ZKFEventFileSourceParser.java:68-105 | a prefix that throws makes the whole walk throw the same exception |
| ZKFLegacySourceParser.ParseEventFileSources | main/java/self/me/matchday/feed/blogger/zkfootball/ZKFEventFileSourceParser.java:56-107 | the forEach over the spans collects their sources in one list, as Spans says, or throws the first exception |
| ZKFLegacySourceParser.SpansFailLater | main/java/self/me/matchday/feed/blogger/zkfootball/ZKFEventFileSourceParser.java:63-106 | a prefix of spans that throws makes the whole parse throw the same exception |
| TokenScan.StartIndex | main/java/self/me/matchday/feed/blogger/galataman/GManEventFileSourceParser.java:78 | the start token is the first element from position i whose own text the start pattern finds in; none is found exactly when no element from there has such text |
| TokenScan.SegmentEnd | main/java/self/me/matchday/feed/blogger/galataman/GManEventFileSourceParser.java:94-111 | the inner loop stops at the next source header after j, or at the end when there is none |
| TokenScan.PartLabel | main/java/self/me/matchday/feed/blogger/galataman/GManEventFileSourceParser.java:97-99 | a part label is read exactly when the HTML is a part identifier, and it is fromString of that HTML |
| TokenScan.NoPartLabel | main/java/self/me/matchday/feed/blogger/galataman/GManEventFileSourceParser.java:94-111 | a parser that does not look for part labels reads none |
| TokenScan.Label | main/java/self/me/matchday/feed/blogger/galataman/GManEventFileSourceParser.java:92-99 | with no part identifier among the elements passed the label is still DEFAULT |
| TokenScan.Links | main/java/self/me/matchday/feed/blogger/galataman/GManEventFileSourceParser.java:94-111 | the walk collects at most one link per element |
| TokenScan.LinksPrefix | main/java/self/me/matchday/feed/blogger/galataman/GManEventFileSourceParser.java:94-111 | the links of a prefix of the elements are a prefix of their links: the loop only appends |
| TokenScan.LinksAreVideoLinks | main/java/self/me/matchday/feed/blogger/galataman/GManEventFileSourceParser.java:100-106 | every link is the href of a video-link element of the segment, and with no part identifier in the segment every link carries DEFAULT |
| TokenScan.WalkStep | main/java/self/me/matchday/feed/blogger/galataman/GManEventFileSourceParser.java:96-110 | one more element relabels when it is a part identifier, and otherwise adds its link with the label in force when it is a video link |
| TokenScan.LinkFiles | main/java/self/me/matchday/feed/blogger/galataman/GManEventFileSourceParser.java:104-106 | one EventFile per link, in order, with the link's part and URL |
| TokenScan.Segment | main/java/self/me/matchday/feed/blogger/galataman/GManEventFileSourceParser.java:91-111 | no element of a segment is a source header |
| TokenScan.StoppedStep | main/java/self/me/matchday/feed/blogger/galataman/GManEventFileSourceParser.java:81-127 | once an exception has left the loop the next sibling is not visited |
| TokenScan.ScanStopped | main/java/self/me/matchday/feed/blogger/galataman/GManEventFileSourceParser.java:81-127 | a stopped walk stays stopped, with the same sources |
| TokenScan.Headers | main/java/self/me/matchday/feed/blogger/galataman/GManEventFileSourceParser.java:81-122 | the headers found are positions within the range whose elements pass isSourceData |
| TokenScan.ScanOneSourcePerHeader | main/java/self/me/matchday/feed/blogger/galataman/GManEventFileSourceParser.java:81-122 | a walk makes its k-th source from the k-th header; one source per header when it did not stop, and at most that many when it did |
| TokenScan.ScanStopCause | main/java/self/me/matchday/feed/blogger/galataman/GManEventFileSourceParser.java:81-127 | a walk that stopped did so at the header after the sources it kept, with that header's exception |
| TokenScan.HeadersGrow | main/java/self/me/matchday/feed/blogger/galataman/GManEventFileSourceParser.java:81-122 | the headers up to one more sibling begin with the headers before it |
| TokenScan.ScanSourceCount | main/java/self/me/matchday/feed/blogger/galataman/GManEventFileSourceParser.java:81-122 | a walk makes at most one source per header, and exactly one per header when it did not stop |
| TokenScan.WalkHeaders | main/java/self/me/matchday/feed/blogger/galataman/GManEventFileSourceParser.java:78-127 | from the start token, the sources are those of the headers in order, all of them exactly when the walk did not stop, and when it stopped the next header's source failed with the exception it stopped on |
| TokenScan.GatherLinks | main/java/self/me/matchday/feed/blogger/galataman/GManEventFileSourceParser.java:91-111 | the inner loop yields the segment's links when all their URLs parse, and reports a URL that does not parse otherwise |
| TokenScan.BadLinkStops | main/java/self/me/matchday/feed/blogger/galataman/GManEventFileSourceParser.java:100-106 | a video link whose URL does not parse leaves the segment with a link that does not parse |
| TokenScan.MakeSource | main/java/self/me/matchday/feed/blogger/galataman/GManEventFileSourceParser.java:85-114 | a header's source is its links gathered and then built, or MalformedURLException, as Maker says |
| TokenScan.ScanStep | main/java/self/me/matchday/feed/blogger/galataman/GManEventFileSourceParser.java:81-122 | one more sibling: a header makes its source and adds it, or stops the walk, unless the walk has already stopped; other siblings change nothing |
| TokenScan.WalkSources | main/java/self/me/matchday/feed/blogger/galataman/GManEventFileSourceParser.java:78-127 | the outer loop from the start token yields WalkDocument: the headers' sources until a bad URL or a builder exception stops it |
| TokenScan.ScanFrom | main/java/self/me/matchday/feed/blogger/galataman/GManEventFileSourceParser.java:81-122 | the outer loop from a given sibling to the end yields Scan over that range |
| TokenScan.ScanStoppedAt | main/java/self/me/matchday/feed/blogger/galataman/GManEventFileSourceParser.java:81-127 | a walk that stops at sibling t stays stopped to the end, unchanged |
| TokenScan.ScanHeader | main/java/self/me/matchday/feed/blogger/galataman/GManEventFileSourceParser.java:83-121 | one sibling of the outer loop is Scan one sibling further, and a stop there is the walk's end |
| GManFileMetadata.BitrateOf | src/main/java/self/me/matchday/plugin/datasource/galataman/GManFileMetadata.java:168-169 | the bitrate is read exactly when the first group is present and parses as a long; it is that long times the factor, wrapped to 64 bits; otherwise an index or number-format exception |
| GManFileMetadata.FrameRateOf | src/main/java/self/me/matchday/plugin/datasource/galataman/GManFileMetadata.java:184 | the frame rate is read exactly when the first group is present and parses as an int, and is that int; otherwise an index or number-format exception |
| GManFileMetadata.VideoItem | src/main/java/self/me/matchday/plugin/datasource/galataman/GManFileMetadata.java:161-188 | one video item sets only bitrate, codec, container or frame rate, and throws only an index or number-format exception |
| GManFileMetadata.VideoRunFieldsOnly | src/main/java/self/me/matchday/plugin/datasource/galataman/GManFileMetadata.java:158-189 | the video loop changes only the video fields and throws only what one of its items throws |
| GManFileMetadata.CodecContainerItem | src/main/java/self/me/matchday/plugin/datasource/galataman/GManFileMetadata.java:172-178 | a "codec container" item sets exactly that codec and the container upper-cased |
| GManFileMetadata.BitrateOfDigits | src/main/java/self/me/matchday/plugin/datasource/galataman/GManFileMetadata.java:168-169 | a first group of at most nine digits reads as its number times the factor, without wrapping |
| GManFileMetadata.BitrateItem | src/main/java/self/me/matchday/plugin/datasource/galataman/GManFileMetadata.java:163-170 | a bitrate item of at most nine digits sets only the bitrate, to that number times the conversion factor |
| GManFileMetadata.AddChannelsOk | src/main/java/self/me/matchday/plugin/datasource/galataman/GManFileMetadata.java:214-217 | the channel loop ends normally exactly when every piece parses |
| GManFileMetadata.AddChannelsTotal | src/main/java/self/me/matchday/plugin/datasource/galataman/GManFileMetadata.java:213-218 | when every piece parses the total is the start plus the sum of the pieces, wrapped to an int |
| GManFileMetadata.AudioItem | src/main/java/self/me/matchday/plugin/datasource/galataman/GManFileMetadata.java:199-224 | one audio item changes only the channel count and the audio codec |
| GManFileMetadata.ChannelItem | src/main/java/self/me/matchday/plugin/datasource/galataman/GManFileMetadata.java:210-218 | a channel item changes at most the channel count |
| GManFileMetadata.AudioRunFieldsOnly | src/main/java/self/me/matchday/plugin/datasource/galataman/GManFileMetadata.java:196-229 | the audio loop, exceptions caught, changes only the channel count and the audio codec |
| GManFileMetadata.StereoIsTwo | src/main/java/self/me/matchday/plugin/datasource/galataman/GManFileMetadata.java:203-205 | "stereo" with any blanks around it sets two channels and ends normally |
| GManFileMetadata.ChannelItemSum | src/main/java/self/me/matchday/plugin/datasource/galataman/GManFileSourceMetadataParser.java:244-252 | a channel item whose pieces all parse stores their sum; the nested parser adds it to the channels so far, GManFileMetadata replaces them |
| GManFileMetadata.ChannelItemStops | src/main/java/self/me/matchday/plugin/datasource/galataman/GManFileSourceMetadataParser.java:244-252 | a piece that does not parse makes the item throw, and GManFileMetadata then keeps the channel count it had |
| GManFileMetadata.MetadataItem | src/main/java/self/me/matchday/plugin/datasource/galataman/GManFileMetadata.java:95-135 | an item whose upper-cased key names no case throws IllegalArgumentException |
| GManFileMetadata.KeyItem | src/main/java/self/me/matchday/plugin/datasource/galataman/GManFileMetadata.java:102-134 | LANGUAGE and COMMENTARY set the joined languages; a case throws only an index, number-format or null-pointer exception |
| GManFileMetadata.MetadataItemsLast | src/main/java/self/me/matchday/plugin/datasource/galataman/GManFileMetadata.java:64-66 | the forEach throws exactly when its earlier items throw or its last item throws on their state |
| GManFileMetadata.UnknownKeyThrows | src/main/java/self/me/matchday/plugin/datasource/galataman/GManFileMetadata.java:131-133 | any item with an unknown key, wherever it stands, makes the whole parse throw |
| GManFileMetadata.UnknownLastThrows | src/main/java/self/me/matchday/plugin/datasource/galataman/GManFileMetadata.java:131-133 | a last item with an unknown key makes the parse throw |
| GManFileMetadata.LanguageIsCommentary | src/main/java/self/me/matchday/plugin/datasource/galataman/GManFileMetadata.java:109-113 | LANGUAGE and COMMENTARY with the same value give the same result: the cleaned value's languages joined with ", ", replacing any before |
| GManFileMetadata.UnreadableSize | src/main/java/self/me/matchday/plugin/datasource/galataman/GManFileSourceMetadataParser.java:168-170 | an unreadable SIZE throws NullPointerException when unboxed in GManFileMetadata, and stores null in the nested parser |
| GManFileMetadata.VideoRunStep | src/main/java/self/me/matchday/plugin/datasource/galataman/GManFileMetadata.java:161-188 | one more video item is that item applied to the state the earlier items left |
| GManFileMetadata.VideoRunFailed | src/main/java/self/me/matchday/plugin/datasource/galataman/GManFileMetadata.java:161-188 | once a prefix of the video items throws, the loop throws that |
| GManFileMetadata.AddChannelsStep | src/main/java/self/me/matchday/plugin/datasource/galataman/GManFileMetadata.java:214-217 | one more piece is added, wrapped, when it parses, and stops the loop when it does not |
| GManFileMetadata.AddChannelsFailed | src/main/java/self/me/matchday/plugin/datasource/galataman/GManFileMetadata.java:214-217 | once a piece fails to parse the later pieces are not read |
| GManFileMetadata.AudioRunStep | src/main/java/self/me/matchday/plugin/datasource/galataman/GManFileMetadata.java:199-225 | one more audio item is that item applied to the state the earlier items left |
| GManFileMetadata.AudioRunStopped | src/main/java/self/me/matchday/plugin/datasource/galataman/GManFileMetadata.java:198-228 | once an audio item throws the remaining items are skipped |
| GManFileMetadata.MetadataItemsStep | src/main/java/self/me/matchday/plugin/datasource/galataman/GManFileMetadata.java:64-66 | one more item is that item applied to the state the earlier items left |
| GManFileMetadata.MetadataItemsFailed | src/main/java/self/me/matchday/plugin/datasource/galataman/GManFileMetadata.java:64-66 | once an item throws the whole parse throws that |
| GManFileMetadata.FileMetadata.constructor | src/main/java/self/me/matchday/plugin/datasource/galataman/GManFileMetadata.java:56-62 | keeps the raw HTML and starts with every field unset |
| GManFileMetadata.FileMetadata.ParseVideoItem | src/main/java/self/me/matchday/plugin/datasource/galataman/GManFileMetadata.java:161-188 | one pass of the video loop updates the fields as the video item function says, or throws what it throws |
| GManFileMetadata.FileMetadata.ParseVideoMetadata | src/main/java/self/me/matchday/plugin/datasource/galataman/GManFileMetadata.java:158-189 | the fields after the loop are the video run over the split items, or its exception |
| GManFileMetadata.FileMetadata.AddChannelPieces | src/main/java/self/me/matchday/plugin/datasource/galataman/GManFileSourceMetadataParser.java:248-252 | adds the pieces to the field one by one (nested parser) or sums them in a local stored only on success |
| GManFileMetadata.FileMetadata.ParseAudioItem | src/main/java/self/me/matchday/plugin/datasource/galataman/GManFileMetadata.java:199-224 | one pass of the audio loop updates the fields as the audio item function says |
| GManFileMetadata.FileMetadata.ParseAudioMetadata | src/main/java/self/me/matchday/plugin/datasource/galataman/GManFileMetadata.java:196-229 | the fields after the loop are the audio run over the split items, the first exception ending it |
| GManFileMetadata.FileMetadata.ParseDataItem | src/main/java/self/me/matchday/plugin/datasource/galataman/GManFileMetadata.java:95-135 | the item updates the fields as the item function says, or throws what it throws |
| GManFileMetadata.FileMetadata.ApplyKey | src/main/java/self/me/matchday/plugin/datasource/galataman/GManFileMetadata.java:102-134 | one case of the switch updates the fields as the key function says |
| GManFileMetadata.FileMetadata.ParseDataItems | src/main/java/self/me/matchday/plugin/datasource/galataman/GManFileMetadata.java:64-66 | the forEach applies every item in order until one throws |
| GManFileMetadata.NewFileMetadata | src/main/java/self/me/matchday/plugin/datasource/galataman/GManFileMetadata.java:56-87 | the constructor fails exactly when the whole parse fails; otherwise a new parser holding the HTML and the parsed fields |
| GManFileMetadata.FileSourceOf | src/main/java/self/me/matchday/plugin/datasource/galataman/GManFileSourceMetadataParser.java:66-79 | the builder copies every metadata value into its field, sets no identifier and no files, and makes the joined languages the one language entry |
| GManFileMetadata.CreateFileSource | src/main/java/self/me/matchday/plugin/datasource/galataman/GManFileSourceMetadataParser.java:63-80 | createFileSource throws exactly when the nested parser does, and otherwise returns the source built from its fields |

## Left out

- I/O: reading a URL, a file or the database is a parameter giving its result or its exception. This covers `readUrlData`, `EventService.fetchEventLike` and the list and page parsers of the forum plugin.
- The clock (`LocalDate.now()`, `LocalDateTime.now()`) is a parameter, and so is the date formatter (`LocalDate.parse`).
- Regular expressions given by a pattern kit at run time are a parameter: the groups of each successive match. The fixed patterns of the parsers are modelled as matchers.
- The jsoup document is likewise reduced to what the parsers read from it: each link's address and the captions of its preceding siblings.
- `VideoFilePack.put` is a parameter, because its rule lives outside the parsers.
- URL decoding (`URLDecoder.decode`) and the `URL` constructor's validity check are parameters. The decoder either gives the decoded text or fails, and a failure is thrown as IllegalArgumentException; which escapes fail is not modelled.
- The iteration order of a `HashMap` is a parameter: a function from a key set to a sequence listing those keys.
- `ForumPlugin.validateDataSource`: the validator it calls is not part of this model.
- `MD5String.fromData`, logging, Lombok builders and JPA annotations are not modelled; a builder becomes a datatype value.
- Strings are sequences of UTF-16 code units. `toLowerCase`, `toUpperCase` (and so `equalsIgnoreCase`) and `\w` are modelled for ASCII only: Java maps every Unicode letter, in the default locale, so "ñ" becomes "Ñ", "ß" becomes "SS" and, under a Turkish locale, "i" becomes "İ", where the model leaves non-ASCII letters as they are. `Integer.parseInt` and `Long.parseLong` accept ASCII digits only, although Java also accepts other Unicode decimal digits.
- Floating point is exact real arithmetic or a parameter. FileFox's `traffic / 100.0f` is an exact real quotient, with no float rounding. `Math.ceil` of the target duration is taken on reals. Float and double printing (`Float.toString`) is a parameter. The floating-point `parseFileSize` of the Galataman and ZKFootball parsers is a parameter.
- Pattern holders and classes outside the core are parameters: GalatamanPattern, GManPatterns, ZKFPatterns, ZKPatterns, BloggerParserPatterns, BloggerPost's JSON readers, EventSorter and the artwork colour luminance. ArtworkCollection.java and FileFoxPage.java are not part of this model; the model reads them as the values the services use.
- The identifier digest of a stored variant playlist and the class loader and file system behind the resource readers are not modelled.
- Concurrency: FileServerPluginService keeps its enabled plugins in a `Collections.synchronizedList` that several threads may share; the model runs each operation alone, start to end, so interleavings of enabling, disabling and looking up plugins are not modelled. The same holds for StreamDelayAdviceService's ping index, a plain `HashMap` inside a shared service.
- ForumPlugin.ScrapeBound: when `getScrapeSteps()` is `Integer.MIN_VALUE`, the subtraction wraps. The bound is stated only for the other values.
- VideoFileSelectorService.BestIndex: when several sources cannot be compared, Java throws the failure that TimSort's comparison order reaches first. The model does not follow that order. It picks NullPointerException for a missing resolution, then the first unreadable language in list order, then NullPointerException for a null competition or team. Its contract promises only what holds whatever the order: when it fails, that it is one of the two exceptions, and which one when only one kind of failure is present. That the sort fails at all when two sources reach a null competition or team rests on the sort being correct: it must compare two neighbours of the tied sources, so the model does not follow which pairs TimSort compares.
- EventService.Sort: the sort is proved to return a permutation, ordered by the sorter; that events the sorter ties keep their order, as List.sort's stability promises, is not stated.

## Findings

| source | as written | input that shows it | evidently intended | confidence | as-written member | corrected member |
|---|---|---|---|---|---|---|
| src/main/java/self/me/matchday/plugin/datasource/EntryParser.java:103-106 | the failure message takes `substring(0, 128)` of the underscore-free text | any unparsable text shorter than 128 characters, such as "abc" | an excerpt of at most 128 characters, so that the IllegalArgumentException is thrown | not executed | DatasourceEntryParser.FailExcerptThrowsOnShortText | DatasourceEntryParser.FailExcerpt |
| src/main/java/self/me/matchday/plugin/datasource/parsing/EntryParser.java:126-129 | the length test is made before the underscores are removed, and the substring after | 127 letters followed by "_" | test the length of the text that is cut | not executed | ParsingEntryParser.GetFailMsgThrowsExample | ParsingEntryParser.GetFailMsg |
| src/main/java/self/me/matchday/model/EventFileSource.java:93-100 | compareTo returns -1 whenever either resolution is null, and subtracts audio channels in 32-bit arithmetic | two sources without a resolution; or both R_SD with channels 2147483647 and -1 | a total order: null resolutions rank lowest, channels compared without overflow | not executed | EventFileSource.CompareToNullNotAntisymmetric | EventFileSource.CorrectedIsOrder |
| src/main/java/self/me/matchday/model/video/VideoFileSource.java:213-219 | the same null rule as EventFileSource.compareTo | two sources without a resolution | null resolutions rank lowest and compare equal to each other | not executed | VideoFileSource.CompareToNullNotAntisymmetric | EventFileSource.CorrectedIsOrder |
| src/main/java/self/me/matchday/feed/blogger/zkfootball/ZKFEventParser.java:202-204 | the fixture number is parsed from the text after the two digits that `split("\\d{2}")` removes | "Matchday 12 leg" | the number is the two digits themselves | not executed | ZKFEventParser.FixtureOfPartAsWrittenLosesNumber | ZKFEventParser.FixtureOfPartKeepsNumber |
| src/main/java/net/tomasbot/matchday/plugin/datasource/forum/ForumPlugin.java:61-62 | `pair[0]` is read from `param.split("=")` | the query "a=1&=" | skip a parameter with neither key nor value, as the code does for "&&" | not executed | ForumPlugin.AddParamAsWrittenThrows | ForumPlugin.AddParamAgrees |
| src/main/java/net/tomasbot/matchday/plugin/datasource/forum/ForumPlugin.java:98 | `page.matches("\\d")` accepts a single digit only | page=12 | read any page number | not executed | ForumPlugin.CurrentPageAsWrittenDropsTwelve | ForumPlugin.CurrentPageTwelve |
| src/main/java/self/me/matchday/plugin/datasource/galataman/GManEventFileSourceParser.java:111 | each link's EventFile is added to `eventFileSource.getEventFiles()`, a list the builder never set | a post whose first source header parses and is followed by a video link | add the file to the source's list of files | not executed | PluginGManEventFileSourceParser.AsWrittenThrowsAtFirstLink | PluginGManEventFileSourceParser.SourcesHoldTheirFiles |
| src/main/java/self/me/matchday/plugin/datasource/zkfootball/ZKFEventFileSourceParser.java:118-121 | the collected files are added with `fileSource.getEventFiles().addAll`, on a list createFileSource never set | a post with a metadata element whose source parses | give the new source the files collected before it | not executed | PluginZKFEventFileSourceParser.AsWrittenThrows | PluginZKFEventFileSourceParser.SourcesHoldSortedFiles |
| src/main/java/self/me/matchday/api/service/video/VideoFileSelectorService.java:128-132 | the comparator orders `false` before `true`, so packs with no enabled plugin sort first | a pack some plugin serves, followed by a pack without parts | choose a pack an enabled plugin can serve | not executed | VideoFileSelectorService.PlaylistFilesAsWrittenExample | VideoFileSelectorService.PlaylistFilesCorrectedPrefersServed |
| main/java/self/me/matchday/model/M3U.java:160-162 | HEADER is appended with no newline before PLAYLIST-TYPE | any playlist: its first line is "#EXTM3U#EXT-X-PLAYLIST-TYPE:EVENT" | "#EXTM3U" on a line of its own, as section 4.3.1.1 of RFC 8216 requires | not executed | M3U.AsWrittenHeaderGlued | M3U.CorrectedReads |
