/**
 * The data-source plugin's ZKFootball post parser
 * (src/main/java/self/me/matchday/plugin/datasource/zkfootball/ZKFEventFileSourceParser.java):
 * every bold element of the post is read in order. One whose own text is a
 * part identifier looks along its following siblings for the next link,
 * stopping at the next part identifier; a link whose href parses as a URL
 * the file server takes for a video becomes an EventFile in a TreeSet
 * ordered by part. A bold element the metadata pattern recognises becomes a
 * file source through ZKFFileSourceMetadataParser.createFileSource, the
 * files gathered so far are added to it, and the set is cleared.
 *
 * As written, the files are added to the list getEventFiles() returns, but
 * the builder createFileSource uses never sets that list, so it is null and
 * every metadata element whose source parses throws NullPointerException,
 * which nothing catches. AsWrittenParse models that; the rest of the model
 * adds the files to the source.
 *
 * Jsoup's cleaning and parsing, the metadata pattern, the URL parser and
 * FileServerService.isVideoLink are parameters.
 */
module PluginZKFEventFileSourceParser {
  import opened Outcome
  import opened JavaString
  import opened EventFile
  import opened EventFileSource
  import opened TokenScan
  import opened ZKFMetadata
  import Meta = ZKFFileSourceMetadataParser

  /** A bold element of the post: its own text, its text, its following element siblings and its spans. */
  datatype Bold = Bold(ownText: String, text: String, siblings: seq<Element>, spans: seq<MetaElement>)

  // ---------------------------------------------------------------------
  // getNextLink
  // ---------------------------------------------------------------------

  /** The first sibling tagged "a", in any case, before any sibling whose own text is a part identifier. */
  function NextLink(siblings: seq<Element>): Option<Element>
  {
    if siblings == [] then None
    else if IsPartIdentifier(siblings[0].ownText) then None
    else if EqualsIgnoreCase(siblings[0].tagName, "a") then Some(siblings[0])
    else NextLink(siblings[1..])
  }

  /**
   * The link found is the first "a" among the siblings, and every sibling
   * before it is neither a part identifier nor a link; no link is found
   * exactly when a part identifier comes first or there is no "a" at all.
   */
  lemma {:induction false} NextLinkIsFirst(siblings: seq<Element>)
    ensures NextLink(siblings).Some? ==>
              exists i :: 0 <= i < |siblings| && siblings[i] == NextLink(siblings).value
                          && EqualsIgnoreCase(siblings[i].tagName, "a") && !IsPartIdentifier(siblings[i].ownText)
                          && forall j :: 0 <= j < i ==>
                               !IsPartIdentifier(siblings[j].ownText) && !EqualsIgnoreCase(siblings[j].tagName, "a")
    ensures NextLink(siblings).None? ==>
              forall i :: 0 <= i < |siblings| && EqualsIgnoreCase(siblings[i].tagName, "a") ==>
                exists j :: 0 <= j <= i && IsPartIdentifier(siblings[j].ownText)
  {
    if siblings != [] && !IsPartIdentifier(siblings[0].ownText) && !EqualsIgnoreCase(siblings[0].tagName, "a") {
      var rest := siblings[1..];
      NextLinkIsFirst(rest);
      if NextLink(rest).Some? {
        var i :| 0 <= i < |rest| && rest[i] == NextLink(rest).value
                 && EqualsIgnoreCase(rest[i].tagName, "a") && !IsPartIdentifier(rest[i].ownText)
                 && forall j :: 0 <= j < i ==> !IsPartIdentifier(rest[j].ownText) && !EqualsIgnoreCase(rest[j].tagName, "a");
        assert siblings[i + 1] == rest[i];
        forall j | 0 <= j < i + 1
          ensures !IsPartIdentifier(siblings[j].ownText) && !EqualsIgnoreCase(siblings[j].tagName, "a")
        {
          if j > 0 {
            assert siblings[j] == rest[j - 1];
          }
        }
      } else {
        forall i | 0 <= i < |siblings| && EqualsIgnoreCase(siblings[i].tagName, "a")
          ensures exists j :: 0 <= j <= i && IsPartIdentifier(siblings[j].ownText)
        {
          assert i > 0 && siblings[i] == rest[i - 1];
          var j :| 0 <= j <= i - 1 && IsPartIdentifier(rest[j].ownText);
          assert siblings[j + 1] == rest[j];
        }
      }
    }
  }

  /** getNextLink: the walk along the siblings. */
  method GetNextLink(b: Bold) returns (r: Option<Element>)
    ensures r == NextLink(b.siblings)
  {
    var i := 0;
    while i < |b.siblings| && !IsPartIdentifier(b.siblings[i].ownText)
      invariant 0 <= i <= |b.siblings|
      invariant NextLink(b.siblings) == NextLink(b.siblings[i..])
    {
      if EqualsIgnoreCase(b.siblings[i].tagName, "a") {
        return Some(b.siblings[i]);
      }
      assert b.siblings[i..][1..] == b.siblings[i + 1..];
      i := i + 1;
    }
    return None;
  }

  // ---------------------------------------------------------------------
  // The TreeSet of EventFiles, ordered by EventFile.compareTo
  // ---------------------------------------------------------------------

  /** Strictly increasing part order: a TreeSet's iteration order, with no two files compareTo calls equal. */
  predicate SortedByPart(fs: seq<EventFile>)
  {
    forall i, j :: 0 <= i < j < |fs| ==> Order(fs[i].title) < Order(fs[j].title)
  }

  /** TreeSet.add: the file in its place by part order, unless a file of the same order is already there. */
  function Insert(fs: seq<EventFile>, f: EventFile): (r: seq<EventFile>)
    ensures SortedByPart(fs) ==>
              forall g :: g in r <==> g in fs || (g == f && forall h :: h in fs ==> Order(h.title) != Order(f.title))
  {
    if fs == [] then [f]
    else if Order(f.title) == Order(fs[0].title) then fs
    else if Order(f.title) < Order(fs[0].title) then
      assert SortedByPart(fs) ==> forall h :: h in fs ==> Order(f.title) < Order(h.title);
      [f] + fs
    else
      assert SortedByPart(fs) ==> SortedByPart(fs[1..]) by {
        if SortedByPart(fs) {
          forall i, j | 0 <= i < j < |fs[1..]|
            ensures Order(fs[1..][i].title) < Order(fs[1..][j].title)
          {
            assert fs[1..][i] == fs[i + 1] && fs[1..][j] == fs[j + 1];
          }
        }
      }
      [fs[0]] + Insert(fs[1..], f)
  }

  /** Adding to the set keeps it in order with at most one file per part order. */
  lemma {:induction false} InsertSorted(fs: seq<EventFile>, f: EventFile)
    requires SortedByPart(fs)
    ensures SortedByPart(Insert(fs, f))
  {
    if fs != [] && Order(f.title) > Order(fs[0].title) {
      var rest := fs[1..];
      assert SortedByPart(rest) by {
        forall i, j | 0 <= i < j < |rest|
          ensures Order(rest[i].title) < Order(rest[j].title)
        {
          assert rest[i] == fs[i + 1] && rest[j] == fs[j + 1];
        }
      }
      InsertSorted(rest, f);
      var r := Insert(fs, f);
      assert r == [fs[0]] + Insert(rest, f);
      forall i, j | 0 <= i < j < |r|
        ensures Order(r[i].title) < Order(r[j].title)
      {
        if i == 0 {
          assert r[j] in Insert(rest, f);
          if r[j] in rest {
            var k :| 0 <= k < |rest| && rest[k] == r[j];
            assert fs[k + 1] == r[j];
          }
        }
      }
    } else if fs != [] && Order(f.title) < Order(fs[0].title) {
      var r := [f] + fs;
      forall i, j | 0 <= i < j < |r|
        ensures Order(r[i].title) < Order(r[j].title)
      {
        if i > 0 {
          assert r[i] == fs[i - 1] && r[j] == fs[j - 1];
        } else if j > 1 {
          assert r[j] == fs[j - 1];
        }
      }
    }
  }

  // ---------------------------------------------------------------------
  // parseEventFileSources
  // ---------------------------------------------------------------------

  /** The walk's state: the set of files gathered since the last source, and the sources made. */
  datatype ParseState = ParseState(files: seq<EventFile>, sources: seq<EventFileSource>)

  /** What the parser needs from outside: the metadata pattern, the patterns, the size reader, the URL tests. */
  datatype Context = Context(isMetadata: String -> bool, patterns: ZKFPatterns, sizeOf: String -> Option<int>,
                             validUrl: String -> bool, isVideoUrl: String -> bool)

  /** A bold element that makes a source: not a part identifier, and the metadata pattern finds its text. */
  predicate IsSourceBold(b: Bold, c: Context)
  {
    !IsPartIdentifier(b.ownText) && c.isMetadata(b.text)
  }

  /** The file a part identifier contributes: its next link's, when the href is a video URL. */
  function LinkFile(b: Bold, c: Context): Option<EventFile>
  {
    var link := NextLink(b.siblings);
    if link.Some? && c.validUrl(link.value.href) && c.isVideoUrl(link.value.href)
    then Some(NewEventFile(PartOf(b.ownText), link.value.href))
    else None
  }

  /**
   * One bold element. With asWritten, a source whose metadata parses meets
   * the null list of files; otherwise the set's files are added to it, in
   * the set's order.
   */
  function Step(st: ParseState, b: Bold, c: Context, asWritten: bool): (r: Result<ParseState>)
    ensures !IsSourceBold(b, c) ==> r.Ok? && r.value.sources == st.sources
    ensures IsSourceBold(b, c) && r.Ok? ==>
              !asWritten && r.value.files == [] && |r.value.sources| == |st.sources| + 1
              && r.value.sources[..|st.sources|] == st.sources
              && Meta.FileSourceFor(b.spans, c.patterns, c.sizeOf).Ok?
              && r.value.sources[|st.sources|] == Meta.FileSourceFor(b.spans, c.patterns, c.sizeOf).value.(eventFiles := st.files)
  {
    if IsPartIdentifier(b.ownText) then
      match LinkFile(b, c)
      case Some(f) => Ok(st.(files := Insert(st.files, f)))
      case None => Ok(st)
    else if c.isMetadata(b.text) then
      var source :- Meta.FileSourceFor(b.spans, c.patterns, c.sizeOf);
      if asWritten then Fail(NullPointer)
      else Ok(ParseState([], st.sources + [source.(eventFiles := source.eventFiles + st.files)]))
    else Ok(st)
  }

  /** The bold elements in order (defined from the end for the loop). */
  function Parse(st: ParseState, bs: seq<Bold>, c: Context, asWritten: bool): Result<ParseState>
  {
    if bs == [] then Ok(st)
    else
      var prev :- Parse(st, bs[..|bs| - 1], c, asWritten);
      Step(prev, bs[|bs| - 1], c, asWritten)
  }

  /** The parser as written. */
  function AsWrittenParse(bs: seq<Bold>, c: Context): Result<seq<EventFileSource>>
  {
    var st :- Parse(ParseState([], []), bs, c, true);
    Ok(st.sources)
  }

  /** The parser with the files added to their sources. */
  function EventFileSources(bs: seq<Bold>, c: Context): Result<seq<EventFileSource>>
  {
    var st :- Parse(ParseState([], []), bs, c, false);
    Ok(st.sources)
  }

  /** A parse that completes parsed all but its last element, then read that one. */
  lemma ParseStep(st: ParseState, bs: seq<Bold>, c: Context, asWritten: bool)
    requires bs != []
    ensures Parse(st, bs, c, asWritten).Ok? ==>
              Parse(st, bs[..|bs| - 1], c, asWritten).Ok?
              && Parse(st, bs, c, asWritten) == Step(Parse(st, bs[..|bs| - 1], c, asWritten).value, bs[|bs| - 1], c, asWritten)
  { }

  /** As written, an element that leaves the sources as they were is the only kind that does not throw. */
  lemma StepAsWritten(st: ParseState, b: Bold, c: Context)
    ensures Step(st, b, c, true).Ok? ==> !IsSourceBold(b, c) && Step(st, b, c, true).value.sources == st.sources
  { }

  /** As written, a post that parses has no metadata element, and so it makes no source. */
  lemma {:induction false} AsWrittenMakesNoSources(st: ParseState, bs: seq<Bold>, c: Context)
    ensures Parse(st, bs, c, true).Ok? ==>
              Parse(st, bs, c, true).value.sources == st.sources && SourceCount(bs, c) == 0
  {
    if bs != [] && Parse(st, bs, c, true).Ok? {
      var n := |bs| - 1;
      var prefix := bs[..n];
      ParseStep(st, bs, c, true);
      var prev := Parse(st, prefix, c, true);
      AsWrittenMakesNoSources(st, prefix, c);
      StepAsWritten(prev.value, bs[n], c);
    }
  }

  /** As written, the first metadata element whose source parses makes the whole parse throw NullPointerException. */
  lemma AsWrittenThrows(bs: seq<Bold>, c: Context, k: nat)
    requires k < |bs| && IsSourceBold(bs[k], c)
    requires Parse(ParseState([], []), bs[..k], c, true).Ok?
    requires Meta.FileSourceFor(bs[k].spans, c.patterns, c.sizeOf).Ok?
    ensures AsWrittenParse(bs, c) == Fail(NullPointer)
  {
    assert bs[..k + 1][..k] == bs[..k];
    ParseFailLater(ParseState([], []), bs, k + 1, c, true);
  }

  /** A prefix that throws makes every longer parse throw the same exception. */
  lemma {:induction false} ParseFailLater(st: ParseState, bs: seq<Bold>, j: nat, c: Context, asWritten: bool)
    requires j <= |bs| && Parse(st, bs[..j], c, asWritten).Fail?
    ensures Parse(st, bs, c, asWritten) == Parse(st, bs[..j], c, asWritten)
    decreases |bs| - j
  {
    if j == |bs| {
      assert bs[..j] == bs;
    } else {
      assert bs[..j + 1][..j] == bs[..j];
      ParseFailLater(st, bs, j + 1, c, asWritten);
    }
  }

  /** The number of metadata elements. */
  function SourceCount(bs: seq<Bold>, c: Context): nat
  {
    if bs == [] then 0 else SourceCount(bs[..|bs| - 1], c) + (if IsSourceBold(bs[|bs| - 1], c) then 1 else 0)
  }

  /**
   * With the files added, the parse makes one source per metadata element;
   * the gathered files stay ordered by part with at most one per part, and
   * every source holds such a set.
   */
  lemma {:induction false} SourcesHoldSortedFiles(st: ParseState, bs: seq<Bold>, c: Context)
    requires SortedByPart(st.files)
    ensures var r := Parse(st, bs, c, false);
            r.Ok? ==> |r.value.sources| == |st.sources| + SourceCount(bs, c)
                      && r.value.sources[..|st.sources|] == st.sources
                      && SortedByPart(r.value.files)
                      && forall k :: |st.sources| <= k < |r.value.sources| ==> SortedByPart(r.value.sources[k].eventFiles)
  {
    if bs != [] {
      var n := |bs| - 1;
      SourcesHoldSortedFiles(st, bs[..n], c);
      ParseStep(st, bs, c, false);
      if Parse(st, bs, c, false).Ok? {
        var p := Parse(st, bs[..n], c, false).value;
        var r := Parse(st, bs, c, false).value;
        StepSorted(p, bs[n], c);
        SortedSourcesGrow(st.sources, p.sources, r.sources);
      }
    }
  }

  /** One element with the files added: the files stay sorted and a new source holds sorted files. */
  lemma StepSorted(p: ParseState, b: Bold, c: Context)
    requires SortedByPart(p.files) && Step(p, b, c, false).Ok?
    ensures var r := Step(p, b, c, false).value;
            |r.sources| == |p.sources| + (if IsSourceBold(b, c) then 1 else 0)
            && r.sources[..|p.sources|] == p.sources
            && SortedByPart(r.files)
            && forall k :: |p.sources| <= k < |r.sources| ==> SortedByPart(r.sources[k].eventFiles)
  {
    if IsPartIdentifier(b.ownText) && LinkFile(b, c).Some? {
      InsertSorted(p.files, LinkFile(b, c).value);
    }
    var r := Step(p, b, c, false).value;
    if !IsSourceBold(b, c) {
      assert r.sources[..|p.sources|] == p.sources;
    }
  }

  /** Sources past a prefix all hold sorted files when those of a shorter prefix and of the new ones do. */
  lemma SortedSourcesGrow(s0: seq<EventFileSource>, p: seq<EventFileSource>, r: seq<EventFileSource>)
    requires |s0| <= |p| <= |r| && p[..|s0|] == s0 && r[..|p|] == p
    requires forall k :: |s0| <= k < |p| ==> SortedByPart(p[k].eventFiles)
    requires forall k :: |p| <= k < |r| ==> SortedByPart(r[k].eventFiles)
    ensures r[..|s0|] == s0
    ensures forall k :: |s0| <= k < |r| ==> SortedByPart(r[k].eventFiles)
  {
    assert r[..|s0|] == r[..|p|][..|s0|];
    forall k | |s0| <= k < |r|
      ensures SortedByPart(r[k].eventFiles)
    {
      if k < |p| {
        assert r[k] == r[..|p|][k];
      }
    }
  }

  /** With the files added, the only exception that escapes is a metadata element's createFileSource exception. */
  lemma {:induction false} OnlyMetadataExceptions(st: ParseState, bs: seq<Bold>, c: Context)
    ensures var r := Parse(st, bs, c, false);
            r.Fail? ==> exists k :: 0 <= k < |bs| && IsSourceBold(bs[k], c)
                                    && Meta.FileSourceFor(bs[k].spans, c.patterns, c.sizeOf) == Fail(r.error)
  {
    if bs != [] {
      var n := |bs| - 1;
      OnlyMetadataExceptions(st, bs[..n], c);
      var prev := Parse(st, bs[..n], c, false);
      if prev.Fail? {
        var k :| 0 <= k < n && IsSourceBold(bs[..n][k], c)
                 && Meta.FileSourceFor(bs[..n][k].spans, c.patterns, c.sizeOf) == Fail(prev.error);
        assert bs[..n][k] == bs[k];
      }
    }
  }

  /** One bold element, with the files added to the source. */
  method TakeBold(files: seq<EventFile>, sources: seq<EventFileSource>, b: Bold, c: Context) returns (r: Result<ParseState>)
    ensures r == Step(ParseState(files, sources), b, c, false)
  {
    if IsPartIdentifier(b.ownText) {
      var part := PartOf(b.ownText);
      var link := GetNextLink(b);
      if link.Some? && c.validUrl(link.value.href) && c.isVideoUrl(link.value.href) {
        return Ok(ParseState(Insert(files, NewEventFile(part, link.value.href)), sources));
      }
      return Ok(ParseState(files, sources));
    } else if c.isMetadata(b.text) {
      var source := Meta.CreateFileSource(b.spans, c.patterns, c.sizeOf);
      if source.Fail? {
        return Fail(source.error);
      }
      return Ok(ParseState([], sources + [source.value.(eventFiles := source.value.eventFiles + files)]));
    }
    return Ok(ParseState(files, sources));
  }

  /** parseEventFileSources, with the files added to their sources. */
  method ParseEventFileSources(bs: seq<Bold>, c: Context) returns (r: Result<seq<EventFileSource>>)
    ensures r == EventFileSources(bs, c)
  {
    var files: seq<EventFile> := [];
    var sources: seq<EventFileSource> := [];
    var i := 0;
    while i < |bs|
      invariant 0 <= i <= |bs|
      invariant Parse(ParseState([], []), bs[..i], c, false) == Ok(ParseState(files, sources))
    {
      assert bs[..i + 1][..i] == bs[..i];
      var next := TakeBold(files, sources, bs[i], c);
      if next.Fail? {
        ParseFailLater(ParseState([], []), bs, i + 1, c, false);
        return Fail(next.error);
      }
      files, sources := next.value.files, next.value.sources;
      i := i + 1;
    }
    assert bs[..i] == bs;
    return Ok(sources);
  }
}
