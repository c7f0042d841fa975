/**
 * The ZKFootball Blogger post parser
 * (src/main/java/self/me/matchday/feed/blogger/zkfootball/ZKFEventFileSourceParser.java,
 * parseEventFileSources): each top-level span's children are walked in
 * order. A separator starts a new group, whose part is DEFAULT and whose
 * list of files is empty; a part identifier relabels the links after it; a
 * video link adds a file under the current part; and a metadata container
 * becomes a source, through fromElements, holding every file of its group so
 * far. The group's list of files is not emptied when a source is made, so a
 * later source of the same group holds the earlier one's files as well.
 * An exception from fromElements escapes the constructor.
 *
 * The URL parser and the InCloudDrive URL pattern are parameters; as the
 * video-link test already parsed the href, the MalformedURLException handler
 * around the EventFile never runs.
 */
module ZKFFeedSourceParser {
  import opened Outcome
  import opened JavaString
  import opened EventFile
  import opened ZKFMetadata
  import opened ZKFTokens
  import opened ZKFFeedMetadata

  /** The walk's state: the part label, the group's files, and the sources made so far. */
  datatype WalkState = WalkState(part: EventPartIdentifier, files: seq<EventFile>, sources: seq<FeedSource>)

  /** A group's start: the containers reset, the sources kept. */
  function GroupStart(sources: seq<FeedSource>): WalkState
  {
    WalkState(DEFAULT, [], sources)
  }

  /** One token. */
  function Step(st: WalkState, t: Token, validUrl: String -> bool, isIcdUrl: String -> bool): (r: Result<WalkState>)
    ensures r.Ok? ==> |st.sources| <= |r.value.sources| && r.value.sources[..|st.sources|] == st.sources
    ensures r.Ok? && KindOf(t, validUrl, isIcdUrl) != MetadataToken ==> r.value.sources == st.sources
    ensures r.Ok? && KindOf(t, validUrl, isIcdUrl) == MetadataToken ==> |r.value.sources| == |st.sources| + 1
    ensures r.Fail? ==> KindOf(t, validUrl, isIcdUrl) == MetadataToken && SourceFor(t.metadata) == Fail(r.error)
  {
    match KindOf(t, validUrl, isIcdUrl)
    case SeparatorToken => Ok(GroupStart(st.sources))
    case PartToken => Ok(st.(part := PartOf(t.element.text)))
    case LinkToken => Ok(st.(files := st.files + [NewEventFile(st.part, t.element.href)]))
    case MetadataToken =>
      var source :- SourceFor(t.metadata);
      Ok(st.(sources := st.sources + [source.(eventFiles := source.eventFiles + st.files)]))
    case OtherToken => Ok(st)
  }

  /** The tokens of one span, in order (defined from the end for the loops). */
  function Walk(st: WalkState, ts: seq<Token>, validUrl: String -> bool, isIcdUrl: String -> bool): Result<WalkState>
  {
    if ts == [] then Ok(st)
    else
      var prev :- Walk(st, ts[..|ts| - 1], validUrl, isIcdUrl);
      Step(prev, ts[|ts| - 1], validUrl, isIcdUrl)
  }

  /** Every span, each walked from a group's start. */
  function Spans(sources: seq<FeedSource>, spans: seq<seq<Token>>, validUrl: String -> bool, isIcdUrl: String -> bool)
    : Result<seq<FeedSource>>
  {
    if spans == [] then Ok(sources)
    else
      var prev :- Spans(sources, spans[..|spans| - 1], validUrl, isIcdUrl);
      var last :- Walk(GroupStart(prev), spans[|spans| - 1], validUrl, isIcdUrl);
      Ok(last.sources)
  }

  /** A walk that completes walked all but its last token, then took that one. */
  lemma WalkStep(st: WalkState, ts: seq<Token>, validUrl: String -> bool, isIcdUrl: String -> bool)
    requires ts != []
    ensures var prev := Walk(st, ts[..|ts| - 1], validUrl, isIcdUrl);
            Walk(st, ts, validUrl, isIcdUrl) == if prev.Fail? then prev else Step(prev.value, ts[|ts| - 1], validUrl, isIcdUrl)
  { }

  /**
   * One source per metadata container: the walk keeps the sources before it
   * and adds exactly as many as there are containers.
   */
  lemma {:induction false} SourcePerMetadata(st: WalkState, ts: seq<Token>, validUrl: String -> bool,
                                             isIcdUrl: String -> bool)
    ensures var r := Walk(st, ts, validUrl, isIcdUrl);
            r.Ok? ==> |r.value.sources| == |st.sources| + MetadataCount(ts, validUrl, isIcdUrl)
                      && r.value.sources[..|st.sources|] == st.sources
  {
    if ts != [] {
      var n := |ts| - 1;
      SourcePerMetadata(st, ts[..n], validUrl, isIcdUrl);
      WalkStep(st, ts, validUrl, isIcdUrl);
      var prev := Walk(st, ts[..n], validUrl, isIcdUrl);
      if prev.Ok? && Walk(st, ts, validUrl, isIcdUrl).Ok? {
        var r := Walk(st, ts, validUrl, isIcdUrl).value;
        assert r.sources[..|prev.value.sources|] == prev.value.sources;
        assert r.sources[..|st.sources|] == r.sources[..|prev.value.sources|][..|st.sources|];
      }
    }
  }

  /** The walk throws only when fromElements throws for one of its metadata containers. */
  lemma {:induction false} WalkFailures(st: WalkState, ts: seq<Token>, validUrl: String -> bool, isIcdUrl: String -> bool)
    ensures var r := Walk(st, ts, validUrl, isIcdUrl);
            r.Fail? ==> exists k :: 0 <= k < |ts| && KindOf(ts[k], validUrl, isIcdUrl) == MetadataToken
                                    && SourceFor(ts[k].metadata) == Fail(r.error)
  {
    if ts != [] {
      var n := |ts| - 1;
      WalkFailures(st, ts[..n], validUrl, isIcdUrl);
      var prev := Walk(st, ts[..n], validUrl, isIcdUrl);
      if prev.Fail? {
        var k :| 0 <= k < n && KindOf(ts[..n][k], validUrl, isIcdUrl) == MetadataToken
                 && SourceFor(ts[..n][k].metadata) == Fail(prev.error);
        assert ts[..n][k] == ts[k];
      }
    }
  }

  /**
   * Within a group the list of files only grows: without a separator, the
   * files before the tokens are the first files after them, so each source
   * holds the files of the sources before it in its group.
   */
  lemma {:induction false} GroupFilesGrow(st: WalkState, ts: seq<Token>, validUrl: String -> bool, isIcdUrl: String -> bool)
    requires forall k :: 0 <= k < |ts| ==> !IsSeparator(ts[k])
    ensures var r := Walk(st, ts, validUrl, isIcdUrl);
            r.Ok? ==> |st.files| <= |r.value.files| && r.value.files[..|st.files|] == st.files
  {
    if ts != [] {
      var n := |ts| - 1;
      assert forall k :: 0 <= k < n ==> ts[..n][k] == ts[k];
      GroupFilesGrow(st, ts[..n], validUrl, isIcdUrl);
      WalkStep(st, ts, validUrl, isIcdUrl);
      var prev := Walk(st, ts[..n], validUrl, isIcdUrl);
      if prev.Ok? && Walk(st, ts, validUrl, isIcdUrl).Ok? {
        var r := Walk(st, ts, validUrl, isIcdUrl).value;
        assert !IsSeparator(ts[n]);
        assert r.files[..|prev.value.files|] == prev.value.files;
        assert r.files[..|st.files|] == r.files[..|prev.value.files|][..|st.files|];
      }
    }
  }

  /** A source made at a metadata container holds the group's files after the metadata's own (none). */
  lemma SourceHoldsGroupFiles(st: WalkState, t: Token, validUrl: String -> bool, isIcdUrl: String -> bool)
    requires KindOf(t, validUrl, isIcdUrl) == MetadataToken
    ensures var r := Step(st, t, validUrl, isIcdUrl);
            r.Ok? ==> r.value.sources[|st.sources|].eventFiles == st.files && r.value.files == st.files
  {
  }

  /** A walk of one span as the code runs it: a group loop around the token loop. */
  method WalkSpan(sources: seq<FeedSource>, ts: seq<Token>, validUrl: String -> bool, isIcdUrl: String -> bool)
    returns (r: Result<seq<FeedSource>>)
    ensures Walk(GroupStart(sources), ts, validUrl, isIcdUrl).Fail? <==> r.Fail?
    ensures r.Fail? ==> r.error == Walk(GroupStart(sources), ts, validUrl, isIcdUrl).error
    ensures r.Ok? ==> r.value == Walk(GroupStart(sources), ts, validUrl, isIcdUrl).value.sources
  {
    var found := sources;
    var i := 0;
    assert ts[..0] == [];
    while i < |ts|
      invariant 0 <= i <= |ts|
      invariant Walk(GroupStart(sources), ts[..i], validUrl, isIcdUrl) == Ok(GroupStart(found))
    {
      var group := WalkGroup(sources, ts, i, found, validUrl, isIcdUrl);
      if group.Fail? {
        return Fail(group.error);
      }
      var j := group.value.0;
      found := group.value.1;
      if j == |ts| {
        assert ts[..j] == ts;
        return Ok(found);
      }
      SeparatorStep(GroupStart(sources), ts, j, validUrl, isIcdUrl);
      i := j + 1;
    }
    assert ts[..i] == ts;
    return Ok(found);
  }

  /**
   * The token loop of one group, from token i up to the next separator or the
   * end: where it stopped and the sources found by then, or what it threw.
   */
  method WalkGroup(sources: seq<FeedSource>, ts: seq<Token>, i: nat, found: seq<FeedSource>,
                   validUrl: String -> bool, isIcdUrl: String -> bool)
    returns (r: Result<(nat, seq<FeedSource>)>)
    requires i <= |ts| && Walk(GroupStart(sources), ts[..i], validUrl, isIcdUrl) == Ok(GroupStart(found))
    ensures r.Fail? ==> Walk(GroupStart(sources), ts, validUrl, isIcdUrl) == Fail(r.error)
    ensures r.Ok? ==> i <= r.value.0 <= |ts| && (r.value.0 < |ts| ==> IsSeparator(ts[r.value.0]))
    ensures r.Ok? ==> Walk(GroupStart(sources), ts[..r.value.0], validUrl, isIcdUrl).Ok?
    ensures r.Ok? ==> Walk(GroupStart(sources), ts[..r.value.0], validUrl, isIcdUrl).value.sources == r.value.1
  {
    var w := Ok(GroupStart(found));
    var j := i;
    while j < |ts| && !IsSeparator(ts[j])
      invariant i <= j <= |ts|
      invariant w.Ok? && w == Walk(GroupStart(sources), ts[..j], validUrl, isIcdUrl)
    {
      w := Advance(GroupStart(sources), ts, j, w.value, validUrl, isIcdUrl);
      if w.Fail? {
        return Fail(w.error);
      }
      j := j + 1;
    }
    return Ok((j, w.value.sources));
  }

  /** Token j of a group taken by the code, as the walk one token further. */
  method Advance(st0: WalkState, ts: seq<Token>, j: nat, st: WalkState, validUrl: String -> bool, isIcdUrl: String -> bool)
    returns (next: Result<WalkState>)
    requires j < |ts| && !IsSeparator(ts[j]) && Walk(st0, ts[..j], validUrl, isIcdUrl) == Ok(st)
    ensures next == Walk(st0, ts[..j + 1], validUrl, isIcdUrl)
    ensures next.Fail? ==> Walk(st0, ts, validUrl, isIcdUrl) == next
  {
    GroupStep(st0, ts, j, st, validUrl, isIcdUrl);
    next := TakeToken(st.part, st.files, st.sources, ts[j], validUrl, isIcdUrl);
  }

  /** The walk up to token j + 1 is the walk up to j, then token j. */
  lemma WalkPrefixStep(st: WalkState, ts: seq<Token>, j: nat, validUrl: String -> bool, isIcdUrl: String -> bool)
    requires j < |ts|
    ensures var prev := Walk(st, ts[..j], validUrl, isIcdUrl);
            Walk(st, ts[..j + 1], validUrl, isIcdUrl) == if prev.Fail? then prev else Step(prev.value, ts[j], validUrl, isIcdUrl)
  {
    assert ts[..j + 1][..j] == ts[..j];
    WalkStep(st, ts[..j + 1], validUrl, isIcdUrl);
  }

  /** One token of a group: the walk one token further, and, when that throws, the whole walk throws. */
  lemma GroupStep(st0: WalkState, ts: seq<Token>, j: nat, st: WalkState, validUrl: String -> bool, isIcdUrl: String -> bool)
    requires j < |ts| && Walk(st0, ts[..j], validUrl, isIcdUrl) == Ok(st)
    ensures Walk(st0, ts[..j + 1], validUrl, isIcdUrl) == Step(st, ts[j], validUrl, isIcdUrl)
    ensures Step(st, ts[j], validUrl, isIcdUrl).Fail? ==> Walk(st0, ts, validUrl, isIcdUrl) == Step(st, ts[j], validUrl, isIcdUrl)
  {
    WalkPrefixStep(st0, ts, j, validUrl, isIcdUrl);
    if Step(st, ts[j], validUrl, isIcdUrl).Fail? {
      WalkFailLater(st0, ts, j + 1, validUrl, isIcdUrl);
    }
  }

  /** A separator after a walked prefix starts a new group with the sources found so far. */
  lemma SeparatorStep(st: WalkState, ts: seq<Token>, j: nat, validUrl: String -> bool, isIcdUrl: String -> bool)
    requires j < |ts| && IsSeparator(ts[j]) && Walk(st, ts[..j], validUrl, isIcdUrl).Ok?
    ensures Walk(st, ts[..j + 1], validUrl, isIcdUrl) == Ok(GroupStart(Walk(st, ts[..j], validUrl, isIcdUrl).value.sources))
  {
    WalkPrefixStep(st, ts, j, validUrl, isIcdUrl);
  }

  /** The body of the token loop: a part label, a link or a metadata container. */
  method TakeToken(part: EventPartIdentifier, files: seq<EventFile>, found: seq<FeedSource>, t: Token,
                   validUrl: String -> bool, isIcdUrl: String -> bool) returns (r: Result<WalkState>)
    requires !IsSeparator(t)
    ensures r == Step(WalkState(part, files, found), t, validUrl, isIcdUrl)
  {
    if IsPartIdentifier(t.element.html) {
      return Ok(WalkState(PartOf(t.element.text), files, found));
    } else if IsVideoLink(t, validUrl, isIcdUrl) {
      return Ok(WalkState(part, files + [NewEventFile(part, t.element.href)], found));
    } else if IsMetadata(t) {
      var source := FromElements(t.metadata);
      if source.Fail? {
        return Fail(source.error);
      }
      return Ok(WalkState(part, files, found + [source.value.(eventFiles := source.value.eventFiles + files)]));
    }
    return Ok(WalkState(part, files, found));
  }

  /** A prefix that throws makes every longer walk throw the same exception. */
  lemma {:induction false} WalkFailLater(st: WalkState, ts: seq<Token>, j: nat, validUrl: String -> bool,
                                         isIcdUrl: String -> bool)
    requires j <= |ts| && Walk(st, ts[..j], validUrl, isIcdUrl).Fail?
    ensures Walk(st, ts, validUrl, isIcdUrl) == Walk(st, ts[..j], validUrl, isIcdUrl)
    decreases |ts| - j
  {
    if j == |ts| {
      assert ts[..j] == ts;
    } else {
      assert ts[..j + 1][..j] == ts[..j];
      WalkFailLater(st, ts, j + 1, validUrl, isIcdUrl);
    }
  }

  /** parseEventFileSources: every span in turn, the sources collected in one list. */
  method ParseEventFileSources(spans: seq<seq<Token>>, validUrl: String -> bool, isIcdUrl: String -> bool)
    returns (r: Result<seq<FeedSource>>)
    ensures r == Spans([], spans, validUrl, isIcdUrl)
  {
    var sources: seq<FeedSource> := [];
    var j := 0;
    while j < |spans|
      invariant 0 <= j <= |spans|
      invariant Spans([], spans[..j], validUrl, isIcdUrl) == Ok(sources)
    {
      assert spans[..j + 1][..j] == spans[..j];
      var walked := WalkSpan(sources, spans[j], validUrl, isIcdUrl);
      if walked.Fail? {
        SpansFailLater(spans, j + 1, validUrl, isIcdUrl);
        return Fail(walked.error);
      }
      sources := walked.value;
      j := j + 1;
    }
    assert spans[..j] == spans;
    return Ok(sources);
  }

  /** A prefix of spans that throws makes the whole parse throw the same exception. */
  lemma {:induction false} SpansFailLater(spans: seq<seq<Token>>, j: nat, validUrl: String -> bool, isIcdUrl: String -> bool)
    requires j <= |spans| && Spans([], spans[..j], validUrl, isIcdUrl).Fail?
    ensures Spans([], spans, validUrl, isIcdUrl) == Spans([], spans[..j], validUrl, isIcdUrl)
    decreases |spans| - j
  {
    if j == |spans| {
      assert spans[..j] == spans;
    } else {
      assert spans[..j + 1][..j] == spans[..j];
      SpansFailLater(spans, j + 1, validUrl, isIcdUrl);
    }
  }

  /** The number of metadata containers over all spans. */
  function SpansMetadataCount(spans: seq<seq<Token>>, validUrl: String -> bool, isIcdUrl: String -> bool): nat
  {
    if spans == [] then 0
    else SpansMetadataCount(spans[..|spans| - 1], validUrl, isIcdUrl) + MetadataCount(spans[|spans| - 1], validUrl, isIcdUrl)
  }

  /** A parse that completes makes one source per metadata container of the post, in document order. */
  lemma {:induction false} SourcesOfPost(sources: seq<FeedSource>, spans: seq<seq<Token>>, validUrl: String -> bool,
                                         isIcdUrl: String -> bool)
    ensures var r := Spans(sources, spans, validUrl, isIcdUrl);
            r.Ok? ==> |r.value| == |sources| + SpansMetadataCount(spans, validUrl, isIcdUrl)
                      && r.value[..|sources|] == sources
  {
    if spans != [] {
      var n := |spans| - 1;
      SourcesOfPost(sources, spans[..n], validUrl, isIcdUrl);
      var prev := Spans(sources, spans[..n], validUrl, isIcdUrl);
      if prev.Ok? {
        SourcePerMetadata(GroupStart(prev.value), spans[n], validUrl, isIcdUrl);
        var r := Spans(sources, spans, validUrl, isIcdUrl);
        if r.Ok? {
          assert r.value[..|sources|] == r.value[..|prev.value|][..|sources|];
        }
      }
    }
  }
}
