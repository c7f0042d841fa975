/**
 * The earlier ZKFootball Blogger post parser
 * (main/java/self/me/matchday/feed/blogger/zkfootball/ZKFEventFileSourceParser.java):
 * the same walk over each top-level span's children as the later parser,
 * but the files go into the current file source itself, a metadata container
 * fills that source in place through populateFileSourceMetadata, and the
 * walk then starts a new, empty one. So every link lands in the one source
 * whose metadata follows it, or is dropped with the unfinished source at a
 * separator or at the end of the span.
 *
 * The file source this parser fills is the one of its own tree, which keeps
 * a list of video details rather than parsed format fields; that class is
 * not part of this model, and its lists are taken to start empty.
 */
module ZKFLegacySourceParser {
  import opened Outcome
  import opened JavaString
  import opened Regex
  import opened EventFile
  import opened EventFileSource
  import opened ZKFMetadata
  import opened ZKFTokens

  /** The fields of the file source populateFileSourceMetadata fills. */
  datatype LegacySource = LegacySource(channel: Option<String>, languages: seq<String>, resolution: Option<Resolution>,
                                       videoData: seq<String>, approximateFileSize: Option<String>,
                                       eventFiles: seq<EventFile>)

  /** new EventFileSource(): nothing set, every list empty. */
  const NewSource: LegacySource := LegacySource(None, [], None, [], None, [])

  /** Each text cleaned, in order. */
  function CleanAll(parts: seq<String>): (r: seq<String>)
    ensures |r| == |parts|
    ensures forall k :: 0 <= k < |parts| ==> r[k] == CleanMetadata(parts[k])
  {
    if parts == [] then [] else CleanAll(parts[..|parts| - 1]) + [CleanMetadata(parts[|parts| - 1])]
  }

  /** The resolution the first format word names: 4K when it holds "4096x2160", else Resolution.fromString of it cleaned. */
  function ResolutionOf(word: String): Option<Resolution>
  {
    if Contains(word, UltraHd) then Some(R_4k) else ResolutionFromString(CleanMetadata(word))
  }

  /**
   * The FORMAT case: the text split on spaces; the first word sets the
   * resolution and the others, cleaned, are added to the video details. A
   * text of spaces only splits into nothing, so reading the first word
   * throws ArrayIndexOutOfBoundsException.
   */
  function FormatData(s: LegacySource, data: String): (r: Result<LegacySource>)
    ensures r.Fail? <==> Split(Literal(" "), data) == []
    ensures r.Fail? ==> r.error == IndexOutOfBounds
    ensures r.Ok? ==> r.value == s.(resolution := ResolutionOf(Split(Literal(" "), data)[0]),
                                   videoData := s.videoData + CleanAll(Split(Literal(" "), data)[1..]))
  {
    var format := Split(Literal(" "), data);
    if |format| == 0 then Fail(IndexOutOfBounds)
    else Ok(s.(resolution := ResolutionOf(format[0]), videoData := s.videoData + CleanAll(format[1..])))
  }

  /** A format text without a space is one word: it sets the resolution and adds no details. */
  lemma FormatOneWord(s: LegacySource, data: String)
    requires ' ' !in data
    ensures FormatData(s, data) == Ok(s.(resolution := ResolutionOf(data)))
  {
    SplitWithout(' ', data);
    var format := Split(Literal(" "), data);
    assert format == [data];
    assert CleanAll(format[1..]) == [];
    assert s.videoData + [] == s.videoData;
  }

  /** Two words: the first names the resolution, the second, cleaned, is the one detail added. */
  lemma FormatTwoWords(s: LegacySource, x: String, y: String)
    requires ' ' !in x && ' ' !in y && y != []
    ensures FormatData(s, x + " " + y)
            == Ok(s.(resolution := ResolutionOf(x), videoData := s.videoData + [CleanMetadata(y)]))
  {
    SplitAtOnly(' ', x, y);
    assert x + " " + y == x + [' '] + y;
    var format := Split(Literal(" "), x + " " + y);
    assert format == [x, y];
    assert format[1..] == [y];
    assert CleanAll([y]) == [CleanMetadata(y)];
  }

  /** A lone space splits into nothing: the format case throws. */
  lemma FormatOfSpaceThrows(s: LegacySource)
    ensures FormatData(s, " ") == Fail(IndexOutOfBounds)
  {
    var m := Literal(" ");
    LiteralCharAt(' ', " ", 0);
    assert Find(m, " ", 0) == Some(Span(0, 1));
    assert Found(m, " ");
    LiteralCharAt(' ', " ", 1);
    assert Find(m, " ", 1).None?;
    var empty: String := [];
    assert " "[1..] == empty && " "[0..0] == empty;
    assert Pieces(m, " ", 1) == [empty];
    assert Pieces(m, " ", 0) == [empty, empty];
    assert StripTrailingEmpty([empty]) == [];
  }

  /** The loop adding every word after the first, cleaned, to the video details. */
  method AddVideoData(videoData: seq<String>, format: seq<String>) returns (r: seq<String>)
    requires |format| > 0
    ensures r == videoData + CleanAll(format[1..])
    ensures |r| == |videoData| + |format| - 1
  {
    r := videoData;
    var i := 1;
    while i < |format|
      invariant 1 <= i <= |format|
      invariant r == videoData + CleanAll(format[1..i])
    {
      r := AddCleaned(videoData, format, i, r);
      i := i + 1;
    }
    assert format[1..i] == format[1..];
  }

  /** The loop body: one more word, cleaned, after those added so far. */
  method AddCleaned(videoData: seq<String>, format: seq<String>, i: nat, r: seq<String>) returns (r': seq<String>)
    requires 1 <= i < |format| && r == videoData + CleanAll(format[1..i])
    ensures r' == videoData + CleanAll(format[1..i + 1])
  {
    CleanAllStep(format, i);
    r' := r + [CleanMetadata(format[i])];
  }

  /** Cleaning one more word appends that word, cleaned. */
  lemma CleanAllStep(format: seq<String>, i: nat)
    requires 1 <= i < |format|
    ensures CleanAll(format[1..i + 1]) == CleanAll(format[1..i]) + [CleanMetadata(format[i])]
  {
    var more := format[1..i + 1];
    assert more[..|more| - 1] == format[1..i];
    assert more[|more| - 1] == format[i];
  }

  /** A tag the switch names. */
  predicate IsTag(text: String)
  {
    text in {ChannelTag, LanguageTag, FormatTag, BitrateTag, SizeTag}
  }

  /**
   * One pass of the forEach: a missing neighbour throws
   * NullPointerException, an empty language StringIndexOutOfBoundsException,
   * a blank format text ArrayIndexOutOfBoundsException and any other tag
   * InvalidBloggerPostException. The bitrate text is added, cleaned, to the
   * video details.
   */
  function ItemOf(s: LegacySource, e: MetaElement): (r: Result<LegacySource>)
    ensures !IsTag(e.text) ==> r == Fail(InvalidBloggerPost)
    ensures r.Fail? ==> r.error in {NullPointer, IndexOutOfBounds, InvalidBloggerPost}
    ensures r.Ok? ==> r.value.eventFiles == s.eventFiles
    ensures r.Ok? && e.text != LanguageTag ==> r.value.languages == s.languages
    ensures r.Ok? && e.text == BitrateTag ==> e.sibling.Some? && r.value.videoData == s.videoData + [CleanMetadata(e.sibling.value)]
    ensures r.Ok? && e.text !in {FormatTag, BitrateTag} ==> r.value.videoData == s.videoData
  {
    if e.text == ChannelTag then
      if e.sibling.None? then Fail(NullPointer) else Ok(s.(channel := Some(CleanMetadata(e.sibling.value))))
    else if e.text == LanguageTag then
      if e.nextBoldText.None? then Fail(NullPointer)
      else
        var language :- LanguageOf(e.nextBoldText.value);
        Ok(s.(languages := s.languages + [language]))
    else if e.text == FormatTag then
      if e.sibling.None? then Fail(NullPointer) else FormatData(s, e.sibling.value)
    else if e.text == BitrateTag then
      if e.sibling.None? then Fail(NullPointer)
      else Ok(s.(videoData := s.videoData + [CleanMetadata(e.sibling.value)]))
    else if e.text == SizeTag then
      if e.sibling.None? then Fail(NullPointer) else Ok(s.(approximateFileSize := Some(CleanMetadata(e.sibling.value))))
    else Fail(InvalidBloggerPost)
  }

  /** populateFileSourceMetadata: the elements in order (defined from the end for the loop); the first exception escapes. */
  function Items(s: LegacySource, es: seq<MetaElement>): Result<LegacySource>
  {
    if es == [] then Ok(s)
    else
      var prev :- Items(s, es[..|es| - 1]);
      ItemOf(prev, es[|es| - 1])
  }

  /** The languages of the language elements, in order. */
  function LanguagesOf(es: seq<MetaElement>): seq<String>
  {
    if es == [] then []
    else
      var e := es[|es| - 1];
      LanguagesOf(es[..|es| - 1])
      + (if e.text == LanguageTag && e.nextBoldText.Some? && LanguageOf(e.nextBoldText.value).Ok?
         then [LanguageOf(e.nextBoldText.value).value] else [])
  }

  /** A population that completes saw only the five tags. */
  lemma OnlyTagsPopulate(s: LegacySource, es: seq<MetaElement>)
    ensures Items(s, es).Ok? ==> forall k :: 0 <= k < |es| ==> IsTag(es[k].text)
  {
    forall k | 0 <= k < |es|
      ensures Items(s, es).Ok? ==> IsTag(es[k].text)
    {
      TagKnownAt(s, es, k);
    }
  }

  /** The element at k of a population that completes carries a tag. */
  lemma {:induction false} TagKnownAt(s: LegacySource, es: seq<MetaElement>, k: nat)
    requires k < |es|
    ensures Items(s, es).Ok? ==> IsTag(es[k].text)
  {
    var n := |es| - 1;
    ItemsStep(s, es);
    if Items(s, es).Ok? {
      if k == n {
        LastTagKnown(Items(s, es[..n]).value, es[n]);
      } else {
        assert es[..n][k] == es[k];
        TagKnownAt(s, es[..n], k);
      }
    }
  }

  /** An element the population gets past carries a tag. */
  lemma LastTagKnown(s: LegacySource, e: MetaElement)
    requires ItemOf(s, e).Ok?
    ensures IsTag(e.text)
  { }

  /** Populating a source keeps its files. */
  lemma {:induction false} PopulateKeepsFiles(s: LegacySource, es: seq<MetaElement>)
    ensures Items(s, es).Ok? ==> Items(s, es).value.eventFiles == s.eventFiles
  {
    if es != [] {
      PopulateKeepsFiles(s, es[..|es| - 1]);
      ItemsStep(s, es);
    }
  }

  /** A population that completes completed on all but its last element, then read that one. */
  lemma ItemsStep(s: LegacySource, es: seq<MetaElement>)
    requires es != []
    ensures Items(s, es).Ok? ==>
              Items(s, es[..|es| - 1]).Ok? && Items(s, es) == ItemOf(Items(s, es[..|es| - 1]).value, es[|es| - 1])
  { }

  /** Every language element adds its language after those before it. */
  lemma {:induction false} LanguagesInOrder(s: LegacySource, es: seq<MetaElement>)
    ensures Items(s, es).Ok? ==> Items(s, es).value.languages == s.languages + LanguagesOf(es)
  {
    if es != [] {
      var init := es[..|es| - 1];
      var e := es[|es| - 1];
      LanguagesInOrder(s, init);
      ItemsStep(s, es);
      if Items(s, es).Ok? {
        ItemLanguages(Items(s, init).value, e);
        assert s.languages + LanguagesOf(init) + LanguageAdded(e) == s.languages + LanguagesOf(es);
      }
    }
  }

  /** The language one element adds: its own, for a language element whose language reads. */
  function LanguageAdded(e: MetaElement): seq<String>
  {
    if e.text == LanguageTag && e.nextBoldText.Some? && LanguageOf(e.nextBoldText.value).Ok?
    then [LanguageOf(e.nextBoldText.value).value] else []
  }

  lemma ItemLanguages(s: LegacySource, e: MetaElement)
    requires ItemOf(s, e).Ok?
    ensures ItemOf(s, e).value.languages == s.languages + LanguageAdded(e)
  {
  }

  /** The population throws only NullPointerException, an index exception or InvalidBloggerPostException. */
  lemma {:induction false} ItemsFailures(s: LegacySource, es: seq<MetaElement>)
    ensures Items(s, es).Fail? ==> Items(s, es).error in {NullPointer, IndexOutOfBounds, InvalidBloggerPost}
  {
    if es != [] {
      ItemsFailures(s, es[..|es| - 1]);
    }
  }

  /** One element of the forEach, with the format case's loop. */
  method PopulateItem(s: LegacySource, e: MetaElement) returns (r: Result<LegacySource>)
    ensures r == ItemOf(s, e)
  {
    if e.text == ChannelTag {
      if e.sibling.None? {
        return Fail(NullPointer);
      }
      return Ok(s.(channel := Some(CleanMetadata(e.sibling.value))));
    } else if e.text == LanguageTag {
      if e.nextBoldText.None? {
        return Fail(NullPointer);
      }
      var language := LanguageOf(e.nextBoldText.value);
      if language.Fail? {
        return Fail(language.error);
      }
      return Ok(s.(languages := s.languages + [language.value]));
    } else if e.text == FormatTag {
      if e.sibling.None? {
        return Fail(NullPointer);
      }
      var format := Split(Literal(" "), e.sibling.value);
      if |format| == 0 {
        return Fail(IndexOutOfBounds);
      }
      var videoData := AddVideoData(s.videoData, format);
      return Ok(s.(resolution := ResolutionOf(format[0]), videoData := videoData));
    } else if e.text == BitrateTag {
      if e.sibling.None? {
        return Fail(NullPointer);
      }
      return Ok(s.(videoData := s.videoData + [CleanMetadata(e.sibling.value)]));
    } else if e.text == SizeTag {
      if e.sibling.None? {
        return Fail(NullPointer);
      }
      return Ok(s.(approximateFileSize := Some(CleanMetadata(e.sibling.value))));
    }
    return Fail(InvalidBloggerPost);
  }

  /** populateFileSourceMetadata: the forEach over the elements. */
  method PopulateFileSourceMetadata(es: seq<MetaElement>, s: LegacySource) returns (r: Result<LegacySource>)
    ensures r == Items(s, es)
  {
    var current := s;
    var i := 0;
    while i < |es|
      invariant 0 <= i <= |es|
      invariant Items(s, es[..i]) == Ok(current)
    {
      assert es[..i + 1][..i] == es[..i];
      var next := PopulateItem(current, es[i]);
      if next.Fail? {
        ItemsFailLater(s, es, i + 1);
        return Fail(next.error);
      }
      current := next.value;
      i := i + 1;
    }
    assert es[..i] == es;
    return Ok(current);
  }

  /** A prefix that throws makes every longer run throw the same exception. */
  lemma {:induction false} ItemsFailLater(s: LegacySource, es: seq<MetaElement>, j: nat)
    requires j <= |es| && Items(s, es[..j]).Fail?
    ensures Items(s, es) == Items(s, es[..j])
    decreases |es| - j
  {
    if j == |es| {
      assert es[..j] == es;
    } else {
      assert es[..j + 1][..j] == es[..j];
      ItemsFailLater(s, es, j + 1);
    }
  }

  // ---------------------------------------------------------------------
  // parseEventFileSources
  // ---------------------------------------------------------------------

  /** The walk's state: the part label, the source being filled, and the sources made so far. */
  datatype WalkState = WalkState(part: EventPartIdentifier, current: LegacySource, sources: seq<LegacySource>)

  /** A group's start: a DEFAULT part and a new source. */
  function GroupStart(sources: seq<LegacySource>): WalkState
  {
    WalkState(DEFAULT, NewSource, sources)
  }

  /** One token. */
  function Step(st: WalkState, t: Token, validUrl: String -> bool, isIcdUrl: String -> bool): (r: Result<WalkState>)
  {
    match KindOf(t, validUrl, isIcdUrl)
    case SeparatorToken => Ok(GroupStart(st.sources))
    case PartToken => Ok(st.(part := PartOf(t.element.text)))
    case LinkToken =>
      Ok(st.(current := st.current.(eventFiles := st.current.eventFiles + [NewEventFile(st.part, t.element.href)])))
    case MetadataToken =>
      var filled :- Items(st.current, t.metadata);
      Ok(st.(current := NewSource, sources := st.sources + [filled]))
    case OtherToken => Ok(st)
  }

  /**
   * A token keeps the sources found so far; only a metadata container adds
   * one, holding the files of the source being filled, and only it can throw,
   * with the exception of populating that source.
   */
  lemma StepEffect(st: WalkState, t: Token, validUrl: String -> bool, isIcdUrl: String -> bool)
    ensures var r := Step(st, t, validUrl, isIcdUrl);
      r.Ok? ==> |st.sources| <= |r.value.sources| && r.value.sources[..|st.sources|] == st.sources
    ensures var r := Step(st, t, validUrl, isIcdUrl);
      r.Ok? && KindOf(t, validUrl, isIcdUrl) != MetadataToken ==> r.value.sources == st.sources
    ensures var r := Step(st, t, validUrl, isIcdUrl);
      r.Ok? && KindOf(t, validUrl, isIcdUrl) == MetadataToken ==>
        |r.value.sources| == |st.sources| + 1 && r.value.current == NewSource
        && r.value.sources[|st.sources|].eventFiles == st.current.eventFiles
    ensures var r := Step(st, t, validUrl, isIcdUrl);
      r.Fail? ==> KindOf(t, validUrl, isIcdUrl) == MetadataToken && Items(st.current, t.metadata) == Fail(r.error)
  {
    if KindOf(t, validUrl, isIcdUrl) == MetadataToken {
      PopulateKeepsFiles(st.current, t.metadata);
    }
  }

  /** The tokens of one span, in order (defined from the end for the loops). */
  function Walk(st: WalkState, ts: seq<Token>, validUrl: String -> bool, isIcdUrl: String -> bool): Result<WalkState>
  {
    if ts == [] then Ok(st)
    else
      var prev :- Walk(st, ts[..|ts| - 1], validUrl, isIcdUrl);
      Step(prev, ts[|ts| - 1], validUrl, isIcdUrl)
  }

  /** Every span, each walked from a group's start. */
  function Spans(sources: seq<LegacySource>, spans: seq<seq<Token>>, validUrl: String -> bool, isIcdUrl: String -> bool)
    : Result<seq<LegacySource>>
  {
    if spans == [] then Ok(sources)
    else
      var prev :- Spans(sources, spans[..|spans| - 1], validUrl, isIcdUrl);
      var last :- Walk(GroupStart(prev), spans[|spans| - 1], validUrl, isIcdUrl);
      Ok(last.sources)
  }

  /** A walk that completes walked all but its last token, then took that one. */
  lemma WalkStep(st: WalkState, ts: seq<Token>, validUrl: String -> bool, isIcdUrl: String -> bool)
    requires ts != []
    ensures var prev := Walk(st, ts[..|ts| - 1], validUrl, isIcdUrl);
            Walk(st, ts, validUrl, isIcdUrl) == if prev.Fail? then prev else Step(prev.value, ts[|ts| - 1], validUrl, isIcdUrl)
  { }

  /** One source per metadata container: the walk keeps the sources before it and adds one for each. */
  lemma {:induction false} SourcePerMetadata(st: WalkState, ts: seq<Token>, validUrl: String -> bool,
                                             isIcdUrl: String -> bool)
    ensures var r := Walk(st, ts, validUrl, isIcdUrl);
            r.Ok? ==> |r.value.sources| == |st.sources| + MetadataCount(ts, validUrl, isIcdUrl)
                      && r.value.sources[..|st.sources|] == st.sources
  {
    if ts != [] {
      var n := |ts| - 1;
      SourcePerMetadata(st, ts[..n], validUrl, isIcdUrl);
      WalkStep(st, ts, validUrl, isIcdUrl);
      var prev := Walk(st, ts[..n], validUrl, isIcdUrl);
      if prev.Ok? && Walk(st, ts, validUrl, isIcdUrl).Ok? {
        StepEffect(prev.value, ts[n], validUrl, isIcdUrl);
        var r := Walk(st, ts, validUrl, isIcdUrl).value;
        assert r.sources[..|st.sources|] == r.sources[..|prev.value.sources|][..|st.sources|];
      }
    }
  }

  /** The number of video links among the tokens. */
  function LinkCount(ts: seq<Token>, validUrl: String -> bool, isIcdUrl: String -> bool): nat
  {
    if ts == [] then 0
    else LinkCount(ts[..|ts| - 1], validUrl, isIcdUrl) + (if KindOf(ts[|ts| - 1], validUrl, isIcdUrl) == LinkToken then 1 else 0)
  }

  /** The number of files over a list of sources. */
  function FileCount(sources: seq<LegacySource>): nat
  {
    if sources == [] then 0 else FileCount(sources[..|sources| - 1]) + |sources[|sources| - 1].eventFiles|
  }

  lemma {:induction false} FileCountAppend(sources: seq<LegacySource>, more: seq<LegacySource>)
    ensures FileCount(sources + more) == FileCount(sources) + FileCount(more)
    decreases |more|
  {
    if more == [] {
      assert sources + more == sources;
    } else {
      var n := |more| - 1;
      assert (sources + more)[..|sources + more| - 1] == sources + more[..n];
      FileCountAppend(sources, more[..n]);
    }
  }

  /**
   * Without a separator every link lands in exactly one source: the files
   * of the new sources and of the source still being filled are the files
   * pending before plus one per link.
   */
  lemma {:induction false} EachLinkOnce(st: WalkState, ts: seq<Token>, validUrl: String -> bool, isIcdUrl: String -> bool)
    requires forall k :: 0 <= k < |ts| ==> !IsSeparator(ts[k])
    ensures var r := Walk(st, ts, validUrl, isIcdUrl);
            r.Ok? ==> |st.sources| <= |r.value.sources|
                      && FileCount(r.value.sources[|st.sources|..]) + |r.value.current.eventFiles|
                         == |st.current.eventFiles| + LinkCount(ts, validUrl, isIcdUrl)
  {
    if ts != [] {
      var n := |ts| - 1;
      assert forall k :: 0 <= k < n ==> ts[..n][k] == ts[k];
      EachLinkOnce(st, ts[..n], validUrl, isIcdUrl);
      WalkStep(st, ts, validUrl, isIcdUrl);
      var prev := Walk(st, ts[..n], validUrl, isIcdUrl);
      if prev.Ok? && Walk(st, ts, validUrl, isIcdUrl).Ok? {
        var p := prev.value;
        var r := Walk(st, ts, validUrl, isIcdUrl).value;
        assert !IsSeparator(ts[n]);
        StepFiles(p, ts[n], validUrl, isIcdUrl);
        FileCountSplit(st.sources, p.sources, r.sources);
      }
    }
  }

  /** The files past a prefix of sources, split where a longer prefix ends. */
  lemma FileCountSplit(s0: seq<LegacySource>, p: seq<LegacySource>, r: seq<LegacySource>)
    requires |s0| <= |p| <= |r| && r[..|p|] == p
    ensures FileCount(r[|s0|..]) == FileCount(p[|s0|..]) + FileCount(r[|p|..])
  {
    assert r[|s0|..] == p[|s0|..] + r[|p|..];
    FileCountAppend(p[|s0|..], r[|p|..]);
  }

  /**
   * One token that is not a separator: the sources found so far stay, and the
   * files of the new sources and of the source being filled are those pending
   * before, plus one for a link.
   */
  lemma StepFiles(p: WalkState, t: Token, validUrl: String -> bool, isIcdUrl: String -> bool)
    requires !IsSeparator(t) && Step(p, t, validUrl, isIcdUrl).Ok?
    ensures var r := Step(p, t, validUrl, isIcdUrl).value;
      |p.sources| <= |r.sources| && r.sources[..|p.sources|] == p.sources
      && FileCount(r.sources[|p.sources|..]) + |r.current.eventFiles|
         == |p.current.eventFiles| + (if KindOf(t, validUrl, isIcdUrl) == LinkToken then 1 else 0)
  {
    StepEffect(p, t, validUrl, isIcdUrl);
    var r := Step(p, t, validUrl, isIcdUrl).value;
    if KindOf(t, validUrl, isIcdUrl) == MetadataToken {
      var added := r.sources[|p.sources|];
      assert r.sources[|p.sources|..] == [added];
      assert FileCount([added]) == |added.eventFiles| by {
        assert [added][..0] == [];
      }
    } else {
      assert r.sources[|p.sources|..] == [];
    }
  }

  /** The walk throws only when populating a metadata container throws. */
  lemma {:induction false} WalkFailures(st: WalkState, ts: seq<Token>, validUrl: String -> bool, isIcdUrl: String -> bool)
    ensures var r := Walk(st, ts, validUrl, isIcdUrl);
            r.Fail? ==> r.error in {NullPointer, IndexOutOfBounds, InvalidBloggerPost}
                        && exists k :: 0 <= k < |ts| && KindOf(ts[k], validUrl, isIcdUrl) == MetadataToken
  {
    if ts != [] {
      var n := |ts| - 1;
      WalkFailures(st, ts[..n], validUrl, isIcdUrl);
      var prev := Walk(st, ts[..n], validUrl, isIcdUrl);
      if prev.Fail? {
        var k :| 0 <= k < n && KindOf(ts[..n][k], validUrl, isIcdUrl) == MetadataToken;
        assert ts[..n][k] == ts[k];
      } else if Walk(st, ts, validUrl, isIcdUrl).Fail? {
        WalkStep(st, ts, validUrl, isIcdUrl);
        StepEffect(prev.value, ts[n], validUrl, isIcdUrl);
        ItemsFailures(prev.value.current, ts[n].metadata);
      }
    }
  }

  /** The body of the token loop: a part label, a link or a metadata container. */
  method TakeToken(part: EventPartIdentifier, current: LegacySource, found: seq<LegacySource>, t: Token,
                   validUrl: String -> bool, isIcdUrl: String -> bool) returns (r: Result<WalkState>)
    requires !IsSeparator(t)
    ensures r == Step(WalkState(part, current, found), t, validUrl, isIcdUrl)
  {
    if IsPartIdentifier(t.element.html) {
      return Ok(WalkState(PartOf(t.element.text), current, found));
    } else if IsVideoLink(t, validUrl, isIcdUrl) {
      return Ok(WalkState(part, current.(eventFiles := current.eventFiles + [NewEventFile(part, t.element.href)]), found));
    } else if IsMetadata(t) {
      var filled := PopulateFileSourceMetadata(t.metadata, current);
      if filled.Fail? {
        return Fail(filled.error);
      }
      return Ok(WalkState(part, NewSource, found + [filled.value]));
    }
    return Ok(WalkState(part, current, found));
  }

  /**
   * The token loop of one group: from token i, which starts a group, up to the
   * next separator or the end of the span, filling a source from the links
   * and closing it at each metadata container.
   */
  method WalkGroup(sources: seq<LegacySource>, ts: seq<Token>, i: nat, found: seq<LegacySource>,
                   validUrl: String -> bool, isIcdUrl: String -> bool)
    returns (r: Result<(nat, seq<LegacySource>)>)
    requires i <= |ts| && Walk(GroupStart(sources), ts[..i], validUrl, isIcdUrl) == Ok(GroupStart(found))
    ensures r.Fail? ==> Walk(GroupStart(sources), ts, validUrl, isIcdUrl) == Fail(r.error)
    ensures r.Ok? ==> i <= r.value.0 <= |ts| && (r.value.0 < |ts| ==> IsSeparator(ts[r.value.0]))
    ensures r.Ok? ==> Walk(GroupStart(sources), ts[..r.value.0], validUrl, isIcdUrl).Ok?
    ensures r.Ok? ==> Walk(GroupStart(sources), ts[..r.value.0], validUrl, isIcdUrl).value.sources == r.value.1
  {
    var w := Ok(GroupStart(found));
    var j := i;
    while j < |ts| && !IsSeparator(ts[j])
      invariant i <= j <= |ts|
      invariant w.Ok? && w == Walk(GroupStart(sources), ts[..j], validUrl, isIcdUrl)
    {
      w := Advance(GroupStart(sources), ts, j, w.value, validUrl, isIcdUrl);
      if w.Fail? {
        return Fail(w.error);
      }
      j := j + 1;
    }
    return Ok((j, w.value.sources));
  }

  /** Token j of a group taken by the code, as the walk one token further. */
  method Advance(st0: WalkState, ts: seq<Token>, j: nat, st: WalkState, validUrl: String -> bool, isIcdUrl: String -> bool)
    returns (next: Result<WalkState>)
    requires j < |ts| && !IsSeparator(ts[j]) && Walk(st0, ts[..j], validUrl, isIcdUrl) == Ok(st)
    ensures next == Walk(st0, ts[..j + 1], validUrl, isIcdUrl)
    ensures next.Fail? ==> Walk(st0, ts, validUrl, isIcdUrl) == next
  {
    GroupStep(st0, ts, j, st, validUrl, isIcdUrl);
    next := TakeToken(st.part, st.current, st.sources, ts[j], validUrl, isIcdUrl);
  }

  /** The walk up to token j + 1 is the walk up to j, then token j. */
  lemma WalkPrefixStep(st: WalkState, ts: seq<Token>, j: nat, validUrl: String -> bool, isIcdUrl: String -> bool)
    requires j < |ts|
    ensures var prev := Walk(st, ts[..j], validUrl, isIcdUrl);
            Walk(st, ts[..j + 1], validUrl, isIcdUrl) == if prev.Fail? then prev else Step(prev.value, ts[j], validUrl, isIcdUrl)
  {
    assert ts[..j + 1][..j] == ts[..j];
    WalkStep(st, ts[..j + 1], validUrl, isIcdUrl);
  }

  /** One token of a group: the walk one token further, and, when that throws, the whole walk throws. */
  lemma GroupStep(st0: WalkState, ts: seq<Token>, j: nat, st: WalkState, validUrl: String -> bool, isIcdUrl: String -> bool)
    requires j < |ts| && Walk(st0, ts[..j], validUrl, isIcdUrl) == Ok(st)
    ensures Walk(st0, ts[..j + 1], validUrl, isIcdUrl) == Step(st, ts[j], validUrl, isIcdUrl)
    ensures Step(st, ts[j], validUrl, isIcdUrl).Fail? ==> Walk(st0, ts, validUrl, isIcdUrl) == Step(st, ts[j], validUrl, isIcdUrl)
  {
    WalkPrefixStep(st0, ts, j, validUrl, isIcdUrl);
    if Step(st, ts[j], validUrl, isIcdUrl).Fail? {
      WalkFailLater(st0, ts, j + 1, validUrl, isIcdUrl);
    }
  }

  /** A separator after a walked prefix starts a new group with the sources found so far. */
  lemma SeparatorStep(st: WalkState, ts: seq<Token>, j: nat, validUrl: String -> bool, isIcdUrl: String -> bool)
    requires j < |ts| && IsSeparator(ts[j]) && Walk(st, ts[..j], validUrl, isIcdUrl).Ok?
    ensures Walk(st, ts[..j + 1], validUrl, isIcdUrl) == Ok(GroupStart(Walk(st, ts[..j], validUrl, isIcdUrl).value.sources))
  {
    WalkPrefixStep(st, ts, j, validUrl, isIcdUrl);
  }

  /** A walk of one span as the code runs it: a group loop around the token loop. */
  method WalkSpan(sources: seq<LegacySource>, ts: seq<Token>, validUrl: String -> bool, isIcdUrl: String -> bool)
    returns (r: Result<seq<LegacySource>>)
    ensures Walk(GroupStart(sources), ts, validUrl, isIcdUrl).Fail? ==>
      r == Fail(Walk(GroupStart(sources), ts, validUrl, isIcdUrl).error)
    ensures Walk(GroupStart(sources), ts, validUrl, isIcdUrl).Ok? ==>
      r == Ok(Walk(GroupStart(sources), ts, validUrl, isIcdUrl).value.sources)
  {
    var found := sources;
    var i := 0;
    assert ts[..0] == [];
    while i < |ts|
      invariant 0 <= i <= |ts|
      invariant Walk(GroupStart(sources), ts[..i], validUrl, isIcdUrl) == Ok(GroupStart(found))
    {
      var group := WalkGroup(sources, ts, i, found, validUrl, isIcdUrl);
      if group.Fail? {
        return Fail(group.error);
      }
      var j := group.value.0;
      found := group.value.1;
      if j == |ts| {
        assert ts[..j] == ts;
        return Ok(found);
      }
      SeparatorStep(GroupStart(sources), ts, j, validUrl, isIcdUrl);
      i := j + 1;
    }
    assert ts[..i] == ts;
    return Ok(found);
  }

  /** A prefix that throws makes every longer walk throw the same exception. */
  lemma {:induction false} WalkFailLater(st: WalkState, ts: seq<Token>, j: nat, validUrl: String -> bool,
                                         isIcdUrl: String -> bool)
    requires j <= |ts| && Walk(st, ts[..j], validUrl, isIcdUrl).Fail?
    ensures Walk(st, ts, validUrl, isIcdUrl) == Walk(st, ts[..j], validUrl, isIcdUrl)
    decreases |ts| - j
  {
    if j == |ts| {
      assert ts[..j] == ts;
    } else {
      assert ts[..j + 1][..j] == ts[..j];
      WalkFailLater(st, ts, j + 1, validUrl, isIcdUrl);
    }
  }

  /** parseEventFileSources: every span in turn, the sources collected in one list. */
  method ParseEventFileSources(spans: seq<seq<Token>>, validUrl: String -> bool, isIcdUrl: String -> bool)
    returns (r: Result<seq<LegacySource>>)
    ensures r == Spans([], spans, validUrl, isIcdUrl)
  {
    var sources: seq<LegacySource> := [];
    var j := 0;
    while j < |spans|
      invariant 0 <= j <= |spans|
      invariant Spans([], spans[..j], validUrl, isIcdUrl) == Ok(sources)
    {
      assert spans[..j + 1][..j] == spans[..j];
      var walked := WalkSpan(sources, spans[j], validUrl, isIcdUrl);
      if walked.Fail? {
        SpansFailLater(spans, j + 1, validUrl, isIcdUrl);
        return Fail(walked.error);
      }
      sources := walked.value;
      j := j + 1;
    }
    assert spans[..j] == spans;
    return Ok(sources);
  }

  /** A prefix of spans that throws makes the whole parse throw the same exception. */
  lemma {:induction false} SpansFailLater(spans: seq<seq<Token>>, j: nat, validUrl: String -> bool, isIcdUrl: String -> bool)
    requires j <= |spans| && Spans([], spans[..j], validUrl, isIcdUrl).Fail?
    ensures Spans([], spans, validUrl, isIcdUrl) == Spans([], spans[..j], validUrl, isIcdUrl)
    decreases |spans| - j
  {
    if j == |spans| {
      assert spans[..j] == spans;
    } else {
      assert spans[..j + 1][..j] == spans[..j];
      SpansFailLater(spans, j + 1, validUrl, isIcdUrl);
    }
  }
}
