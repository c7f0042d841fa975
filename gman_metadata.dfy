/**
 * What every Galataman metadata parser does with the HTML of one source
 * (GManFileMetadata, GManFileSourceMetadataParser, GManEventFileSourceParser,
 * GalatamanEventFileSource and both GalatamanMatchSource builders): "&nbsp;"
 * removed, the text split into items on the item delimiter, every non-empty
 * item split on the key/value delimiter into exactly two parts, each value
 * stripped of tags and trimmed, and languages or audio/video data split into
 * lists. The delimiters are matchers; a parser whose pattern holder is not
 * part of this model receives them as parameters.
 *
 * The four list-based builders (the metadata parser nested in
 * GManEventFileSourceParser, GalatamanEventFileSource and both
 * GalatamanMatchSource builders) share one class here, SourceBuilder, which
 * each configures with its delimiters, its two exception kinds and the way
 * it reads the RELEASE value.
 */
module GalatamanMetadata {
  import opened Outcome
  import opened JavaString
  import opened Regex
  import opened EventFileSource

  /** The entity every parser removes before splitting. */
  const Nbsp: String := "&nbsp;"

  // ---------------------------------------------------------------------
  // clean: replaceAll("<[^>]*>", "").trim()
  // ---------------------------------------------------------------------

  /** The first '>' at or after from. */
  function FirstClose(s: String, from: nat): (r: Option<nat>)
    decreases |s| - from
    ensures r.Some? ==> from <= r.value < |s| && s[r.value] == '>'
    ensures r.Some? ==> forall k :: from <= k < r.value ==> s[k] != '>'
    ensures r.None? ==> forall k :: from <= k < |s| ==> s[k] != '>'
  {
    if from >= |s| then None
    else if s[from] == '>' then Some(from)
    else FirstClose(s, from + 1)
  }

  /**
   * replaceAll("<[^>]*>", ""): scanning left to right, a '<' and everything up
   * to the first '>' after it are removed; a '<' with no '>' after it stays.
   */
  function StripTags(s: String): (r: String)
    decreases |s|
    ensures |r| <= |s|
  {
    if s == [] then []
    else if s[0] == '<' && FirstClose(s, 1).Some? then StripTags(s[FirstClose(s, 1).value + 1..])
    else [s[0]] + StripTags(s[1..])
  }

  /** No '<' is followed, anywhere later, by a '>': nothing left for the tag pattern to match. */
  predicate TagFree(s: String)
  {
    forall i, j :: 0 <= i < j < |s| && s[i] == '<' ==> s[j] != '>'
  }

  /** A text without '>' has no tag to remove. */
  lemma {:induction false} StripTagsNoClose(s: String)
    requires forall k :: 0 <= k < |s| ==> s[k] != '>'
    ensures StripTags(s) == s
    decreases |s|
  {
    if s != [] {
      assert FirstClose(s, 1).None?;
      StripTagsNoClose(s[1..]);
    }
  }

  /** Once the tags are removed, no '<' is followed by a '>'. */
  lemma {:induction false} StripTagsTagFree(s: String)
    ensures TagFree(StripTags(s))
    decreases |s|
  {
    if s != [] {
      if s[0] == '<' && FirstClose(s, 1).Some? {
        StripTagsTagFree(s[FirstClose(s, 1).value + 1..]);
      } else {
        var t := StripTags(s[1..]);
        StripTagsTagFree(s[1..]);
        var r := [s[0]] + t;
        assert StripTags(s) == r;
        if s[0] == '<' {
          forall k | 0 <= k < |s[1..]| ensures s[1..][k] != '>' {
            assert s[1..][k] == s[k + 1];
          }
          StripTagsNoClose(s[1..]);
        }
        forall i, j | 0 <= i < j < |r| && r[i] == '<' ensures r[j] != '>' {
          assert r[j] == t[j - 1];
          if i > 0 {
            assert r[i] == t[i - 1];
          }
        }
      }
    }
  }

  /** A tag-free text is left as it is. */
  lemma {:induction false} StripTagsKeepsTagFree(s: String)
    requires TagFree(s)
    ensures StripTags(s) == s
    decreases |s|
  {
    if s != [] {
      if s[0] == '<' {
        assert forall k :: 1 <= k < |s| ==> s[k] != '>';
      }
      assert TagFree(s[1..]) by {
        forall i, j | 0 <= i < j < |s[1..]| && s[1..][i] == '<' ensures s[1..][j] != '>' {
          assert s[1..][i] == s[i + 1] && s[1..][j] == s[j + 1];
        }
      }
      StripTagsKeepsTagFree(s[1..]);
    }
  }

  /** Trimming keeps a text tag-free. */
  lemma TrimTagFree(t: String)
    requires TagFree(t)
    ensures TagFree(Trim(t))
  {
    var r := Trim(t);
    var a: nat, b: nat :| StrippedFrom(t, r, a, b);
    forall i, j | 0 <= i < j < |r| && r[i] == '<' ensures r[j] != '>' {
      assert r[i] == t[a + i] && r[j] == t[a + j];
    }
  }

  /** clean: the tags removed, then the ends trimmed. */
  function Clean(s: String): String
  {
    Trim(StripTags(s))
  }

  /** A cleaned value has no tag left in it and no blank at either end. */
  lemma CleanTagFree(s: String)
    ensures TagFree(Clean(s))
    ensures var r := Clean(s); |r| > 0 ==> r[0] > ' ' && r[|r| - 1] > ' '
  {
    StripTagsTagFree(s);
    TrimTagFree(StripTags(s));
  }

  /** Cleaning a cleaned value changes nothing. */
  lemma CleanIdempotent(s: String)
    ensures Clean(Clean(s)) == Clean(s)
  {
    var c := Clean(s);
    CleanTagFree(s);
    StripTagsKeepsTagFree(c);
    TrimIdempotent(StripTags(s));
  }

  // ---------------------------------------------------------------------
  // Key/value items
  // ---------------------------------------------------------------------

  /** A metadata item split into its key and its value. */
  datatype MetadataTuple = MetadataTuple(key: String, value: String)

  /** getKeyString: the key, upper-cased. */
  function KeyString(kv: MetadataTuple): String
  {
    Upper(kv.key)
  }

  /** new MetadataTuple(data, delimiter): the two parts of the split, or the given exception when there are not exactly two. */
  function NewMetadataTuple(data: String, delimiter: Matcher, error: Exception): (r: Result<MetadataTuple>)
    ensures r.Ok? <==> |Split(delimiter, data)| == 2
    ensures r.Ok? ==> [r.value.key, r.value.value] == Split(delimiter, data)
    ensures r.Fail? ==> r.error == error
  {
    var parts := Split(delimiter, data);
    if |parts| == 2 then Ok(MetadataTuple(parts[0], parts[1])) else Fail(error)
  }

  /** A key and a non-empty value on either side of the delimiter's only match make that tuple again. */
  lemma TupleRoundTrip(delimiter: Matcher, key: String, sep: String, value: String, error: Exception)
    requires value != []
    requires forall k :: 0 <= k < |key| ==> MatchEnd(delimiter, key + sep + value, k).None?
    requires MatchEnd(delimiter, key + sep + value, |key|) == Some(|key| + |sep|)
    requires forall k :: |key| + |sep| <= k ==> MatchEnd(delimiter, key + sep + value, k).None?
    ensures NewMetadataTuple(key + sep + value, delimiter, error) == Ok(MetadataTuple(key, value))
  {
    SplitAtOneMatch(delimiter, key, sep, value);
  }

  /** filter(item -> !"".equals(item)): the non-empty items, in order. */
  function NonEmpty(items: seq<String>): (r: seq<String>)
    ensures |r| <= |items|
  {
    if items == [] then [] else (if items[0] == [] then [] else [items[0]]) + NonEmpty(items[1..])
  }

  /** The filter keeps exactly the non-empty items. */
  lemma {:induction false} NonEmptyMembers(items: seq<String>)
    ensures forall x :: x in NonEmpty(items) <==> x in items && x != []
  {
    if items != [] {
      NonEmptyMembers(items[1..]);
      assert items == [items[0]] + items[1..];
    }
  }

  /** The collected map to tuples: every tuple in order, or the exception of the first item that does not split in two. */
  function Tuples(items: seq<String>, delimiter: Matcher, error: Exception): (r: Result<seq<MetadataTuple>>)
    ensures r.Ok? ==> |r.value| == |items|
    ensures r.Fail? ==> r.error == error
  {
    if items == [] then Ok([])
    else
      match NewMetadataTuple(items[0], delimiter, error)
      case Fail(e) => Fail(e)
      case Ok(kv) =>
        match Tuples(items[1..], delimiter, error)
        case Fail(e) => Fail(e)
        case Ok(rest) => Ok([kv] + rest)
  }

  /** The tuples exist exactly when every item splits in two. */
  lemma {:induction false} TuplesOk(items: seq<String>, delimiter: Matcher, error: Exception)
    ensures Tuples(items, delimiter, error).Ok? <==>
              forall i :: 0 <= i < |items| ==> NewMetadataTuple(items[i], delimiter, error).Ok?
  {
    if items != [] {
      var rest := items[1..];
      var head := NewMetadataTuple(items[0], delimiter, error);
      assert Tuples(items, delimiter, error).Ok? <==> head.Ok? && Tuples(rest, delimiter, error).Ok?;
      TuplesOk(rest, delimiter, error);
      assert forall i :: 0 < i < |items| ==> items[i] == rest[i - 1];
    }
  }

  /** When the tuples exist, the i-th is the i-th item's tuple. */
  lemma {:induction false} TuplesInOrder(items: seq<String>, delimiter: Matcher, error: Exception)
    ensures Tuples(items, delimiter, error).Ok? ==>
              forall i :: 0 <= i < |items| ==>
                NewMetadataTuple(items[i], delimiter, error).Ok?
                && Tuples(items, delimiter, error).value[i] == NewMetadataTuple(items[i], delimiter, error).value
  {
    if Tuples(items, delimiter, error).Ok? {
      forall i | 0 <= i < |items|
        ensures NewMetadataTuple(items[i], delimiter, error).Ok?
        ensures Tuples(items, delimiter, error).value[i] == NewMetadataTuple(items[i], delimiter, error).value
      {
        TupleAt(items, delimiter, error, i);
      }
    }
  }

  /** The tuple at one position, by induction on the position. */
  lemma {:induction false} TupleAt(items: seq<String>, delimiter: Matcher, error: Exception, i: nat)
    requires Tuples(items, delimiter, error).Ok? && i < |items|
    ensures NewMetadataTuple(items[i], delimiter, error).Ok?
    ensures Tuples(items, delimiter, error).value[i] == NewMetadataTuple(items[i], delimiter, error).value
  {
    var rest := items[1..];
    var rr := Tuples(rest, delimiter, error);
    assert rr.Ok?;
    assert Tuples(items, delimiter, error).value == [NewMetadataTuple(items[0], delimiter, error).value] + rr.value;
    if i > 0 {
      TupleAt(rest, delimiter, error, i - 1);
      assert items[i] == rest[i - 1];
    }
  }

  /** parseDataItems: "&nbsp;" removed, the text split into items, empty items dropped and each made a tuple. */
  function DataItems(html: String, itemDelimiter: Matcher, kvDelimiter: Matcher, error: Exception)
    : Result<seq<MetadataTuple>>
  {
    Tuples(NonEmpty(Split(itemDelimiter, Replace(html, Nbsp, []))), kvDelimiter, error)
  }

  // ---------------------------------------------------------------------
  // Languages and audio/video items
  // ---------------------------------------------------------------------

  /** removeIf(lang -> "".equals(lang.trim())): the entries that are not blank, in order and untrimmed. */
  function DropBlank(parts: seq<String>): (r: seq<String>)
    ensures |r| <= |parts|
  {
    if parts == [] then [] else (if Trim(parts[0]) == [] then [] else [parts[0]]) + DropBlank(parts[1..])
  }

  /** An entry survives exactly when it is not blank. */
  lemma {:induction false} DropBlankMembers(parts: seq<String>)
    ensures forall x :: x in DropBlank(parts) <==> x in parts && Trim(x) != []
  {
    if parts != [] {
      DropBlankMembers(parts[1..]);
      assert parts == [parts[0]] + parts[1..];
    }
  }

  /** parseLanguages: the language text split on the delimiter, blank entries removed. */
  function Languages(value: String, delimiter: Matcher): seq<String>
  {
    DropBlank(Split(delimiter, value))
  }

  /** Each text mapped by f, the empty results dropped, in order (defined from the end, like a loop). */
  function Kept(parts: seq<String>, f: String -> String): (r: seq<String>)
    ensures |r| <= |parts|
  {
    if parts == [] then []
    else
      var last := f(parts[|parts| - 1]);
      Kept(parts[..|parts| - 1], f) + (if last == [] then [] else [last])
  }

  /** Every kept text is non-empty and the image of one of the texts. */
  lemma {:induction false} KeptFrom(parts: seq<String>, f: String -> String, x: String) returns (k: nat)
    requires x in Kept(parts, f)
    ensures k < |parts| && x == f(parts[k]) && x != []
  {
    var n := |parts| - 1;
    var init := parts[..n];
    var last := f(parts[n]);
    assert Kept(parts, f) == Kept(init, f) + (if last == [] then [] else [last]);
    if x in Kept(init, f) {
      k := KeptFrom(init, f, x);
      assert init[k] == parts[k];
    } else {
      k := n;
    }
  }

  /** Every text whose image is not empty gives a kept text. */
  lemma {:induction false} KeptKeeps(parts: seq<String>, f: String -> String, k: nat)
    requires k < |parts| && f(parts[k]) != []
    ensures f(parts[k]) in Kept(parts, f)
  {
    var n := |parts| - 1;
    var init := parts[..n];
    var last := f(parts[n]);
    assert Kept(parts, f) == Kept(init, f) + (if last == [] then [] else [last]);
    if k < n {
      assert init[k] == parts[k];
      KeptKeeps(init, f, k);
    }
  }

  /** The audio/video item loop: each field trimmed and kept when not empty, in order. */
  function TrimmedItems(parts: seq<String>): seq<String>
  {
    Kept(parts, Trim)
  }

  /** The items are trimmed and not empty, and every field that is not blank gives one. */
  lemma TrimmedItemsMembers(parts: seq<String>)
    ensures forall x :: x in TrimmedItems(parts) ==> x != [] && Trim(x) == x
    ensures forall k :: 0 <= k < |parts| && Trim(parts[k]) != [] ==> Trim(parts[k]) in TrimmedItems(parts)
  {
    forall x | x in TrimmedItems(parts) ensures x != [] && Trim(x) == x {
      var k := KeptFrom(parts, Trim, x);
      TrimIdempotent(parts[k]);
    }
    forall k | 0 <= k < |parts| && Trim(parts[k]) != [] ensures Trim(parts[k]) in TrimmedItems(parts) {
      KeptKeeps(parts, Trim, k);
    }
  }

  /** One more field extends the items by its trimmed text, when that is not empty. */
  lemma TrimmedItemsStep(parts: seq<String>, i: nat)
    requires i < |parts|
    ensures TrimmedItems(parts[..i + 1])
            == TrimmedItems(parts[..i]) + (if Trim(parts[i]) == [] then [] else [Trim(parts[i])])
  {
    assert parts[..i + 1][..i] == parts[..i];
  }

  /** parseAVData: the text split on the delimiter, each field trimmed, the empty ones dropped. */
  method ParseAvData(avData: String, delimiter: Matcher) returns (items: seq<String>)
    ensures items == TrimmedItems(Split(delimiter, avData))
  {
    var parts := Split(delimiter, avData);
    items := [];
    var i := 0;
    while i < |parts|
      invariant 0 <= i <= |parts|
      invariant items == TrimmedItems(parts[..i])
    {
      var trim := Trim(parts[i]);
      TrimmedItemsStep(parts, i);
      if trim != [] {
        items := items + [trim];
      }
      i := i + 1;
    }
    assert parts[..|parts|] == parts;
  }

  /** parseResolution of the GMan parsers: what fromString finds when isResolution holds, R_SD otherwise. */
  function ParseResolution(s: String): (r: Resolution)
    ensures r == R_SD || PatternMatches(r, s)
    ensures IsResolution(s) ==> ResolutionFromString(s) == Some(r)
    ensures !IsResolution(s) ==> r == R_SD
  {
    IsResolutionIff(s);
    if IsResolution(s) then ResolutionFromString(s).value else R_SD
  }

  // ---------------------------------------------------------------------
  // The keys
  // ---------------------------------------------------------------------

  /** The keys the switch of every parseDataItem names. */
  datatype Key = Channel | Source | Language | Commentary | Video | Audio | Duration | Size | Release

  /** The text each case of the switch is written with. */
  function KeyName(k: Key): String
  {
    match k
    case Channel => "CHANNEL"
    case Source => "SOURCE"
    case Language => "LANGUAGE"
    case Commentary => "COMMENTARY"
    case Video => "VIDEO"
    case Audio => "AUDIO"
    case Duration => "DURATION"
    case Size => "SIZE"
    case Release => "RELEASE"
  }

  /** Every case of the switch, in the order it is written. */
  const Keys: seq<Key> := [Channel, Source, Language, Commentary, Video, Audio, Duration, Size, Release]

  /** The first of ks written with the key text. */
  function KeyIn(key: String, ks: seq<Key>): Option<Key>
  {
    if ks == [] then None
    else if KeyName(ks[0]) == key then Some(ks[0])
    else KeyIn(key, ks[1..])
  }

  /** A key the lookup does not find is written with none of the cases searched. */
  lemma {:induction false} KeyInNone(key: String, ks: seq<Key>, k: Key)
    requires KeyIn(key, ks).None? && k in ks
    ensures KeyName(k) != key
  {
    if ks[0] != k {
      KeyInNone(key, ks[1..], k);
    }
  }

  /** The switch on the key text: the case it selects, or none for the default branch. */
  function KeyOf(key: String): Option<Key>
  {
    KeyIn(key, Keys)
  }

  /** A key the lookup finds is written with the key text. */
  lemma {:induction false} KeyInNames(key: String, ks: seq<Key>)
    ensures KeyIn(key, ks).Some? ==> KeyIn(key, ks).value in ks && KeyName(KeyIn(key, ks).value) == key
  {
    if ks != [] && KeyName(ks[0]) != key {
      KeyInNames(key, ks[1..]);
    }
  }

  /** The case the switch selects is the one written with the key text. */
  lemma KeyOfSome(key: String)
    ensures KeyOf(key).Some? ==> KeyName(KeyOf(key).value) == key
  {
    KeyInNames(key, Keys);
  }

  /** The default branch is taken exactly when no case is written with the key text. */
  lemma KeyOfNone(key: String)
    ensures KeyOf(key).None? <==> forall k: Key :: KeyName(k) != key
  {
    KeyOfSome(key);
    if KeyOf(key).None? {
      forall k: Key ensures KeyName(k) != key {
        assert k in Keys by {
          match k
          case Channel =>
          case Source =>
          case Language =>
          case Commentary =>
          case Video =>
          case Audio =>
          case Duration =>
          case Size =>
          case Release =>
        }
        KeyInNone(key, Keys, k);
      }
    }
  }

  // ---------------------------------------------------------------------
  // The list-based builders
  // ---------------------------------------------------------------------

  /** What a list-based builder has collected; the release is whatever its parser makes of the RELEASE value. */
  datatype SourceFields<R> = SourceFields(channel: Option<String>, source: Option<String>, languages: seq<String>,
                                          videoData: seq<String>, audioData: seq<String>, duration: Option<String>,
                                          size: Option<String>, release: Option<R>)

  /** A new builder: null values and empty lists. */
  function NoFields<R>(): SourceFields<R>
  {
    SourceFields(None, None, [], [], [], None, None, None)
  }

  /**
   * One builder's configuration: its four delimiters, the exception a bad
   * tuple ends in, the exception an unknown key throws, and how it reads the
   * RELEASE value.
   */
  datatype BuilderConfig<R> = BuilderConfig(itemDelimiter: Matcher, kvDelimiter: Matcher, languageDelimiter: Matcher,
                                            avDelimiter: Matcher, tupleError: Exception, unknownKeyError: Exception,
                                            readRelease: String -> R)

  /** One case of the switch of the list-based builders: the cleaned value stored, appended, or read as the release. */
  function SetField<R>(f: SourceFields<R>, k: Key, value: String, c: BuilderConfig<R>): (r: SourceFields<R>)
    ensures r.languages == f.languages + (if k in {Language, Commentary} then Languages(value, c.languageDelimiter) else [])
    ensures r.videoData == f.videoData + (if k == Video then TrimmedItems(Split(c.avDelimiter, value)) else [])
    ensures r.audioData == f.audioData + (if k == Audio then TrimmedItems(Split(c.avDelimiter, value)) else [])
  {
    match k
    case Channel => f.(channel := Some(value))
    case Source => f.(source := Some(value))
    case Language => f.(languages := f.languages + Languages(value, c.languageDelimiter))
    case Commentary => f.(languages := f.languages + Languages(value, c.languageDelimiter))
    case Video => f.(videoData := f.videoData + TrimmedItems(Split(c.avDelimiter, value)))
    case Audio => f.(audioData := f.audioData + TrimmedItems(Split(c.avDelimiter, value)))
    case Duration => f.(duration := Some(value))
    case Size => f.(size := Some(value))
    case Release => f.(release := Some(c.readRelease(value)))
  }

  /**
   * parseDataItem of the list-based builders: the case the upper-cased key
   * selects applied to the cleaned value; an unknown key throws.
   */
  function ApplyItem<R>(f: SourceFields<R>, kv: MetadataTuple, c: BuilderConfig<R>): (r: Result<SourceFields<R>>)
    ensures r.Fail? <==> KeyOf(KeyString(kv)).None?
    ensures r.Fail? ==> r.error == c.unknownKeyError
  {
    match KeyOf(KeyString(kv))
    case None => Fail(c.unknownKeyError)
    case Some(k) => Ok(SetField(f, k, Clean(kv.value), c))
  }

  /** The forEach over the tuples: each applied in order, an unknown key ending it (defined from the end for the loop). */
  function ApplyAll<R>(f: SourceFields<R>, kvs: seq<MetadataTuple>, c: BuilderConfig<R>): Result<SourceFields<R>>
  {
    if kvs == [] then Ok(f)
    else
      match ApplyAll(f, kvs[..|kvs| - 1], c)
      case Fail(e) => Fail(e)
      case Ok(g) => ApplyItem(g, kvs[|kvs| - 1], c)
  }

  /** The languages the language and commentary items of kvs contribute, in order. */
  function LanguagesOf<R>(kvs: seq<MetadataTuple>, c: BuilderConfig<R>): seq<String>
  {
    if kvs == [] then []
    else
      var kv := kvs[|kvs| - 1];
      LanguagesOf(kvs[..|kvs| - 1], c) + ItemLanguages(kv, c)
  }

  /** Every item's key is one the switch names (defined from the end, like ApplyAll). */
  predicate AllKnown(kvs: seq<MetadataTuple>)
  {
    kvs == [] || (AllKnown(kvs[..|kvs| - 1]) && KeyOf(KeyString(kvs[|kvs| - 1])).Some?)
  }

  /** AllKnown holds exactly when no item takes the default branch. */
  lemma {:induction false} AllKnownIff(kvs: seq<MetadataTuple>)
    ensures AllKnown(kvs) <==> forall i :: 0 <= i < |kvs| ==> KeyOf(KeyString(kvs[i])).Some?
  {
    if kvs != [] {
      var n := |kvs| - 1;
      var init := kvs[..n];
      AllKnownIff(init);
      assert AllKnown(kvs) <==> AllKnown(init) && KeyOf(KeyString(kvs[n])).Some?;
      assert forall i :: 0 <= i < n ==> init[i] == kvs[i];
    }
  }

  /** Applying the items fails exactly when one of them has a key the switch does not name. */
  lemma {:induction false} ApplyAllFails<R>(f: SourceFields<R>, kvs: seq<MetadataTuple>, c: BuilderConfig<R>)
    ensures ApplyAll(f, kvs, c).Fail? <==> exists i :: 0 <= i < |kvs| && KeyOf(KeyString(kvs[i])).None?
  {
    ApplyAllFailsUnknown(f, kvs, c);
    AllKnownIff(kvs);
  }

  /** The same, against AllKnown. */
  lemma {:induction false} ApplyAllFailsUnknown<R>(f: SourceFields<R>, kvs: seq<MetadataTuple>, c: BuilderConfig<R>)
    ensures ApplyAll(f, kvs, c).Fail? <==> !AllKnown(kvs)
  {
    if kvs != [] {
      ApplyAllFailsUnknown(f, kvs[..|kvs| - 1], c);
    }
  }

  /** The items fail only with the unknown-key exception. */
  lemma {:induction false} ApplyAllError<R>(f: SourceFields<R>, kvs: seq<MetadataTuple>, c: BuilderConfig<R>)
    ensures ApplyAll(f, kvs, c).Fail? ==> ApplyAll(f, kvs, c).error == c.unknownKeyError
  {
    if kvs != [] {
      ApplyAllError(f, kvs[..|kvs| - 1], c);
    }
  }

  /**
   * When the items apply, the languages are the old ones followed by every
   * language and commentary item's languages, in item order.
   */
  lemma {:induction false} ApplyAllLanguages<R>(f: SourceFields<R>, kvs: seq<MetadataTuple>, c: BuilderConfig<R>)
    ensures ApplyAll(f, kvs, c).Ok? ==> ApplyAll(f, kvs, c).value.languages == f.languages + LanguagesOf(kvs, c)
  {
    if kvs != [] {
      var n := |kvs| - 1;
      var init := kvs[..n];
      ApplyAllLanguages(f, init, c);
      var g := ApplyAll(f, init, c);
      if g.Ok? {
        var kv := kvs[n];
        assert ApplyAll(f, kvs, c) == ApplyItem(g.value, kv, c);
        assert LanguagesOf(kvs, c) == LanguagesOf(init, c) + ItemLanguages(kv, c);
        ApplyItemLanguages(g.value, kv, c);
      }
    }
  }

  /** The languages one item contributes: its split when it is a language or commentary item, none otherwise. */
  function ItemLanguages<R>(kv: MetadataTuple, c: BuilderConfig<R>): seq<String>
  {
    if KeyOf(KeyString(kv)) in {Some(Language), Some(Commentary)}
    then Languages(Clean(kv.value), c.languageDelimiter) else []
  }

  /** One item appends its languages and nothing else to the list. */
  lemma ApplyItemLanguages<R>(f: SourceFields<R>, kv: MetadataTuple, c: BuilderConfig<R>)
    ensures ApplyItem(f, kv, c).Ok? ==> ApplyItem(f, kv, c).value.languages == f.languages + ItemLanguages(kv, c)
  {
    var key := KeyOf(KeyString(kv));
    if key.Some? {
      var v := Clean(kv.value);
      assert ApplyItem(f, kv, c) == Ok(SetField(f, key.value, v, c));
      assert ItemLanguages(kv, c) == if key.value in {Language, Commentary} then Languages(v, c.languageDelimiter) else [];
    }
  }

  /** Every language the items contribute is a non-blank entry of its item's split. */
  lemma {:induction false} LanguagesOfNotBlank<R>(kvs: seq<MetadataTuple>, c: BuilderConfig<R>)
    ensures forall x :: x in LanguagesOf(kvs, c) ==> Trim(x) != []
  {
    if kvs != [] {
      var kv := kvs[|kvs| - 1];
      LanguagesOfNotBlank(kvs[..|kvs| - 1], c);
      DropBlankMembers(Split(c.languageDelimiter, Clean(kv.value)));
    }
  }

  /** No entry is blank. */
  predicate NoBlank(xs: seq<String>)
  {
    forall x :: x in xs ==> Trim(x) != []
  }

  /** Every entry is trimmed and not empty. */
  predicate AllTrimmed(xs: seq<String>)
  {
    forall x :: x in xs ==> x != [] && Trim(x) == x
  }

  /** No language is blank, and every audio/video item is trimmed and not empty. */
  predicate Tidy<R>(f: SourceFields<R>)
  {
    NoBlank(f.languages) && AllTrimmed(f.videoData) && AllTrimmed(f.audioData)
  }

  /** Both properties survive appending a list that has them. */
  lemma TidyAppend(a: seq<String>, b: seq<String>)
    ensures NoBlank(a) && NoBlank(b) ==> NoBlank(a + b)
    ensures AllTrimmed(a) && AllTrimmed(b) ==> AllTrimmed(a + b)
  {
  }

  /** One case of the switch keeps the lists free of blank entries. */
  lemma SetFieldTidy<R>(f: SourceFields<R>, k: Key, value: String, c: BuilderConfig<R>)
    requires Tidy(f)
    ensures Tidy(SetField(f, k, value, c))
  {
    var r := SetField(f, k, value, c);
    var langs := Split(c.languageDelimiter, value);
    var av := Split(c.avDelimiter, value);
    DropBlankMembers(langs);
    TrimmedItemsMembers(av);
    assert NoBlank(Languages(value, c.languageDelimiter)) && AllTrimmed(TrimmedItems(av));
    assert NoBlank([]) && AllTrimmed([]);
    TidyAppend(f.languages, if k in {Language, Commentary} then Languages(value, c.languageDelimiter) else []);
    TidyAppend(f.videoData, if k == Video then TrimmedItems(av) else []);
    TidyAppend(f.audioData, if k == Audio then TrimmedItems(av) else []);
  }

  /** Applying the items keeps the lists free of blank entries. */
  lemma {:induction false} ApplyAllTidy<R>(f: SourceFields<R>, kvs: seq<MetadataTuple>, c: BuilderConfig<R>)
    requires Tidy(f)
    ensures ApplyAll(f, kvs, c).Ok? ==> Tidy(ApplyAll(f, kvs, c).value)
  {
    if kvs != [] {
      var n := |kvs| - 1;
      ApplyAllTidy(f, kvs[..n], c);
      var g := ApplyAll(f, kvs[..n], c);
      var kv := kvs[n];
      if g.Ok? && KeyOf(KeyString(kv)).Some? {
        SetFieldTidy(g.value, KeyOf(KeyString(kv)).value, Clean(kv.value), c);
      }
    }
  }

  /** The builder constructor's outcome: the items parsed, then applied to a new builder. */
  function ParseFields<R>(html: String, c: BuilderConfig<R>): Result<SourceFields<R>>
  {
    var kvs :- DataItems(html, c.itemDelimiter, c.kvDelimiter, c.tupleError);
    ApplyAll(NoFields(), kvs, c)
  }

  /** A builder fails only with its bad-tuple or its unknown-key exception. */
  lemma ParseFieldsError<R>(html: String, c: BuilderConfig<R>)
    ensures ParseFields(html, c).Fail? ==> ParseFields(html, c).error in {c.tupleError, c.unknownKeyError}
  {
    var kvs := DataItems(html, c.itemDelimiter, c.kvDelimiter, c.tupleError);
    if kvs.Ok? {
      ApplyAllError(NoFields(), kvs.value, c);
    }
  }

  /** What a builder collects has no blank language and no blank or untrimmed audio/video item. */
  lemma ParseFieldsTidy<R>(html: String, c: BuilderConfig<R>)
    ensures ParseFields(html, c).Ok? ==> Tidy(ParseFields(html, c).value)
  {
    var kvs := DataItems(html, c.itemDelimiter, c.kvDelimiter, c.tupleError);
    if kvs.Ok? {
      ApplyAllTidy(NoFields(), kvs.value, c);
    }
  }

  /** The cleaned value of the last RELEASE item, if there is one. */
  function LastRelease(kvs: seq<MetadataTuple>): (r: Option<String>)
    ensures r.Some? ==> exists k :: 0 <= k < |kvs| && KeyOf(KeyString(kvs[k])) == Some(Release) && r.value == Clean(kvs[k].value)
    ensures r.None? ==> forall k :: 0 <= k < |kvs| ==> KeyOf(KeyString(kvs[k])) != Some(Release)
  {
    if kvs == [] then None
    else
      var n := |kvs| - 1;
      if KeyOf(KeyString(kvs[n])) == Some(Release) then Some(Clean(kvs[n].value))
      else
        var r := LastRelease(kvs[..n]);
        assert forall k :: 0 <= k < n ==> kvs[..n][k] == kvs[k];
        r
  }

  /** When the items apply, the release is the builder's reading of the last RELEASE value, or unchanged without one. */
  lemma {:induction false} ApplyAllRelease<R>(f: SourceFields<R>, kvs: seq<MetadataTuple>, c: BuilderConfig<R>)
    ensures ApplyAll(f, kvs, c).Ok? ==>
              ApplyAll(f, kvs, c).value.release
              == if LastRelease(kvs).Some? then Some(c.readRelease(LastRelease(kvs).value)) else f.release
  {
    if kvs != [] {
      var n := |kvs| - 1;
      var init := kvs[..n];
      ApplyAllRelease(f, init, c);
      var g := ApplyAll(f, init, c);
      if g.Ok? {
        var kv := kvs[n];
        assert ApplyAll(f, kvs, c) == ApplyItem(g.value, kv, c);
        assert LastRelease(kvs) == if KeyOf(KeyString(kv)) == Some(Release) then Some(Clean(kv.value)) else LastRelease(init);
        ApplyItemRelease(g.value, kv, c);
      }
    }
  }

  /** One item sets the release exactly when it is a RELEASE item. */
  lemma ApplyItemRelease<R>(f: SourceFields<R>, kv: MetadataTuple, c: BuilderConfig<R>)
    ensures ApplyItem(f, kv, c).Ok? ==>
              ApplyItem(f, kv, c).value.release
              == if KeyOf(KeyString(kv)) == Some(Release) then Some(c.readRelease(Clean(kv.value))) else f.release
  {
    var key := KeyOf(KeyString(kv));
    if key.Some? {
      assert ApplyItem(f, kv, c) == Ok(SetField(f, key.value, Clean(kv.value), c));
    }
  }

  /** The RELEASE a builder ends with: its reading of the last RELEASE item's value, or null without one. */
  lemma ParseFieldsRelease<R>(html: String, c: BuilderConfig<R>)
    ensures var kvs := DataItems(html, c.itemDelimiter, c.kvDelimiter, c.tupleError);
            ParseFields(html, c).Ok? ==>
              && kvs.Ok?
              && ParseFields(html, c).value.release
                 == if LastRelease(kvs.value).Some? then Some(c.readRelease(LastRelease(kvs.value).value)) else None
  {
    var kvs := DataItems(html, c.itemDelimiter, c.kvDelimiter, c.tupleError);
    if kvs.Ok? {
      ApplyAllRelease(NoFields(), kvs.value, c);
    }
  }

  /** The delimiters a GalatamanPattern class holds: between items, between key and value, between languages and between audio/video items. */
  datatype Delimiters = Delimiters(item: Matcher, kv: Matcher, language: Matcher, av: Matcher)

  /** A list-based builder: the raw metadata and the fields its items set. */
  class SourceBuilder<R> {
    const metadataStr: String
    var channel: Option<String>
    var source: Option<String>
    var languages: seq<String>
    var videoData: seq<String>
    var audioData: seq<String>
    var duration: Option<String>
    var size: Option<String>
    var release: Option<R>

    function Fields(): SourceFields<R>
      reads this
    {
      SourceFields(channel, source, languages, videoData, audioData, duration, size, release)
    }

    constructor(metadataStr: String)
      ensures this.metadataStr == metadataStr && Fields() == NoFields()
    {
      this.metadataStr := metadataStr;
      channel := None;
      source := None;
      languages := [];
      videoData := [];
      audioData := [];
      duration := None;
      size := None;
      release := None;
    }

    /** One case of the switch: the field the key names set or extended. */
    method SetKeyField(k: Key, value: String, c: BuilderConfig<R>)
      modifies this
      ensures Fields() == SetField(old(Fields()), k, value, c)
    {
      match k {
        case Channel =>
          channel := Some(value);
        case Source =>
          source := Some(value);
        case Language =>
          languages := languages + Languages(value, c.languageDelimiter);
        case Commentary =>
          languages := languages + Languages(value, c.languageDelimiter);
        case Video =>
          var items := ParseAvData(value, c.avDelimiter);
          videoData := videoData + items;
        case Audio =>
          var items := ParseAvData(value, c.avDelimiter);
          audioData := audioData + items;
        case Duration =>
          duration := Some(value);
        case Size =>
          size := Some(value);
        case Release =>
          release := Some(c.readRelease(value));
      }
    }

    /** parseDataItem: the field the key names set or extended; an unknown key throws and changes nothing. */
    method ParseDataItem(kv: MetadataTuple, c: BuilderConfig<R>) returns (r: Result<()>)
      modifies this
      ensures r.Fail? <==> ApplyItem(old(Fields()), kv, c).Fail?
      ensures r.Fail? ==> r.error == c.unknownKeyError && Fields() == old(Fields())
      ensures r.Ok? ==> Fields() == ApplyItem(old(Fields()), kv, c).value
    {
      match KeyOf(KeyString(kv)) {
        case None =>
          r := Fail(c.unknownKeyError);
        case Some(k) =>
          SetKeyField(k, Clean(kv.value), c);
          r := Ok(());
      }
    }

    /** The forEach over the tuples: each applied in order until one throws. */
    method ParseDataItems(kvs: seq<MetadataTuple>, c: BuilderConfig<R>) returns (r: Result<()>)
      modifies this
      ensures r.Fail? <==> ApplyAll(old(Fields()), kvs, c).Fail?
      ensures r.Fail? ==> r.error == ApplyAll(old(Fields()), kvs, c).error
      ensures r.Ok? ==> Fields() == ApplyAll(old(Fields()), kvs, c).value
    {
      var i := 0;
      while i < |kvs|
        invariant 0 <= i <= |kvs|
        invariant ApplyAll(old(Fields()), kvs[..i], c) == Ok(Fields())
      {
        ApplyAllStep(old(Fields()), kvs, i, c);
        var step := ParseDataItem(kvs[i], c);
        if step.Fail? {
          ApplyAllFailed(old(Fields()), kvs, i + 1, c);
          return Fail(step.error);
        }
        i := i + 1;
      }
      assert kvs[..|kvs|] == kvs;
      return Ok(());
    }
  }

  /** Applying one more item is applying it to what the earlier ones gave. */
  lemma ApplyAllStep<R>(f: SourceFields<R>, kvs: seq<MetadataTuple>, i: nat, c: BuilderConfig<R>)
    requires i < |kvs| && ApplyAll(f, kvs[..i], c).Ok?
    ensures ApplyAll(f, kvs[..i + 1], c) == ApplyItem(ApplyAll(f, kvs[..i], c).value, kvs[i], c)
  {
    assert kvs[..i + 1][..i] == kvs[..i];
  }

  /** A failure among the earlier items is the failure of them all. */
  lemma ApplyAllPropagates<R>(f: SourceFields<R>, kvs: seq<MetadataTuple>, c: BuilderConfig<R>)
    requires kvs != [] && ApplyAll(f, kvs[..|kvs| - 1], c).Fail?
    ensures ApplyAll(f, kvs, c) == ApplyAll(f, kvs[..|kvs| - 1], c)
  {
  }

  /** Once a prefix of the items fails, applying them all fails with the same exception. */
  lemma {:induction false} ApplyAllFailed<R>(f: SourceFields<R>, kvs: seq<MetadataTuple>, i: nat, c: BuilderConfig<R>)
    requires i <= |kvs| && ApplyAll(f, kvs[..i], c).Fail?
    ensures ApplyAll(f, kvs, c) == ApplyAll(f, kvs[..i], c)
    decreases |kvs| - i
  {
    if i < |kvs| {
      var init := kvs[..|kvs| - 1];
      assert init[..i] == kvs[..i];
      ApplyAllFailed(f, init, i, c);
      ApplyAllPropagates(f, kvs, c);
    } else {
      assert kvs[..i] == kvs;
    }
  }

  /**
   * A builder constructor: the items are all parsed before the first is
   * applied, so a bad tuple leaves no builder; then each is applied in order.
   */
  method NewSourceBuilder<R>(html: String, c: BuilderConfig<R>) returns (r: Result<SourceBuilder<R>>)
    ensures r.Fail? <==> ParseFields(html, c).Fail?
    ensures r.Fail? ==> r.error == ParseFields(html, c).error
    ensures r.Ok? ==> fresh(r.value) && r.value.metadataStr == html && r.value.Fields() == ParseFields(html, c).value
  {
    var items := DataItems(html, c.itemDelimiter, c.kvDelimiter, c.tupleError);
    if items.Fail? {
      return Fail(items.error);
    }
    var b := new SourceBuilder(html);
    var applied := b.ParseDataItems(items.value, c);
    if applied.Fail? {
      return Fail(applied.error);
    }
    return Ok(b);
  }
}
