/**
 * The ZKFootball metadata parser of the data-source plugin
 * (plugin/datasource/zkfootball/ZKFMetadataParser.java): createFileSource
 * runs a new parser over the metadata elements, each element's tag choosing
 * the field its neighbour's text sets, then copies the fields into a new
 * EventFileSource with an empty set of files. A tag the switch does not name
 * is passed over. The file-size pattern and the floating-point arithmetic of
 * parseFileSize are not part of this model, so the size reading is a
 * parameter.
 */
module ZKFMetadataParser {
  import opened Outcome
  import opened JavaString
  import opened EventFileSource
  import opened ZKFMetadata

  /** The fields the parser sets. */
  datatype Parsed = Parsed(channel: Option<String>, languages: seq<String>, format: FormatFields, bitrate: int,
                           fileSize: Option<int>)

  /** A new parser: nothing set, the bitrate and frame rate zero. */
  const Unparsed: Parsed := Parsed(None, [], FormatFields(None, 0, None), 0, None)

  /** A tag the switch names. */
  predicate IsTag(text: String)
  {
    text in {ChannelTag, LanguageTag, FormatTag, BitrateTag, SizeTag}
  }

  /**
   * One pass of the forEach: the case the element's text selects. A missing
   * neighbour throws NullPointerException and an empty language
   * StringIndexOutOfBoundsException, neither caught; an unknown tag changes
   * nothing.
   */
  function ItemOf(m: Parsed, e: MetaElement, p: ZKFPatterns, sizeOf: String -> Option<int>): (r: Result<Parsed>)
    ensures !IsTag(e.text) ==> r == Ok(m)
    ensures r.Fail? ==> r.error in {NullPointer, IndexOutOfBounds}
    ensures r.Ok? && e.text != LanguageTag ==> r.value.languages == m.languages
    ensures r.Ok? && e.text != ChannelTag ==> r.value.channel == m.channel
  {
    if e.text == ChannelTag then
      if e.sibling.None? then Fail(NullPointer) else Ok(m.(channel := Some(CleanMetadata(e.sibling.value))))
    else if e.text == LanguageTag then
      if e.nextBoldText.None? then Fail(NullPointer)
      else
        var language :- LanguageOf(e.nextBoldText.value);
        Ok(m.(languages := m.languages + [language]))
    else if e.text == FormatTag then
      if e.sibling.None? then Fail(NullPointer) else Ok(m.(format := Format(m.format, e.sibling.value, p)))
    else if e.text == BitrateTag then
      if e.sibling.None? then Fail(NullPointer)
      else Ok(m.(bitrate := BitrateOf(m.bitrate, Trim(CleanMetadata(e.sibling.value)), p)))
    else if e.text == SizeTag then
      if e.sibling.None? then Fail(NullPointer) else Ok(m.(fileSize := sizeOf(CleanMetadata(e.sibling.value))))
    else Ok(m)
  }

  /** parseEventMetadata: the elements in order (defined from the end for the loop); the first exception escapes. */
  function Items(m: Parsed, es: seq<MetaElement>, p: ZKFPatterns, sizeOf: String -> Option<int>): Result<Parsed>
  {
    if es == [] then Ok(m)
    else
      var prev :- Items(m, es[..|es| - 1], p, sizeOf);
      ItemOf(prev, es[|es| - 1], p, sizeOf)
  }

  /** The languages of the language elements, in order: each is the bold text after its tag, cleaned and capitalised. */
  function LanguagesOf(es: seq<MetaElement>): seq<String>
  {
    if es == [] then []
    else
      var e := es[|es| - 1];
      LanguagesOf(es[..|es| - 1])
      + (if e.text == LanguageTag && e.nextBoldText.Some? && LanguageOf(e.nextBoldText.value).Ok?
         then [LanguageOf(e.nextBoldText.value).value] else [])
  }

  /** The elements whose tags the switch names, in order. */
  function Tagged(es: seq<MetaElement>): (r: seq<MetaElement>)
    ensures forall k :: 0 <= k < |r| ==> IsTag(r[k].text)
  {
    if es == [] then []
    else Tagged(es[..|es| - 1]) + (if IsTag(es[|es| - 1].text) then [es[|es| - 1]] else [])
  }

  /** Every language element adds its language, after those before it; the list is never reordered or replaced. */
  lemma {:induction false} LanguagesInOrder(m: Parsed, es: seq<MetaElement>, p: ZKFPatterns, sizeOf: String -> Option<int>)
    ensures Items(m, es, p, sizeOf).Ok? ==> Items(m, es, p, sizeOf).value.languages == m.languages + LanguagesOf(es)
  {
    if es != [] {
      LanguagesInOrder(m, es[..|es| - 1], p, sizeOf);
    }
  }

  /** Elements with other tags can be left out: they change nothing and throw nothing. */
  lemma {:induction false} UnknownTagsIgnored(m: Parsed, es: seq<MetaElement>, p: ZKFPatterns, sizeOf: String -> Option<int>)
    ensures Items(m, es, p, sizeOf) == Items(m, Tagged(es), p, sizeOf)
  {
    if es != [] {
      var n := |es| - 1;
      UnknownTagsIgnored(m, es[..n], p, sizeOf);
      ItemsLast(m, es, p, sizeOf);
      if IsTag(es[n].text) {
        var t := Tagged(es[..n]) + [es[n]];
        assert t[..|t| - 1] == Tagged(es[..n]);
        ItemsLast(m, t, p, sizeOf);
      } else {
        assert Tagged(es) == Tagged(es[..n]);
      }
    }
  }

  /** A run throws when its prefix throws, and otherwise ends with its last element applied. */
  lemma ItemsLast(m: Parsed, es: seq<MetaElement>, p: ZKFPatterns, sizeOf: String -> Option<int>)
    requires es != []
    ensures var prev := Items(m, es[..|es| - 1], p, sizeOf);
            Items(m, es, p, sizeOf) == if prev.Fail? then Fail(prev.error) else ItemOf(prev.value, es[|es| - 1], p, sizeOf)
  {
  }

  /** The parse throws only a NullPointerException or a StringIndexOutOfBoundsException. */
  lemma {:induction false} ItemsFailures(m: Parsed, es: seq<MetaElement>, p: ZKFPatterns, sizeOf: String -> Option<int>)
    ensures Items(m, es, p, sizeOf).Fail? ==> Items(m, es, p, sizeOf).error in {NullPointer, IndexOutOfBounds}
  {
    if es != [] {
      ItemsFailures(m, es[..|es| - 1], p, sizeOf);
    }
  }

  /** The parser: the fields parseEventMetadata sets. */
  class MetadataParser {
    var channel: Option<String>
    var languages: seq<String>
    var resolution: Option<Resolution>
    var frameRate: int
    var mediaContainer: Option<String>
    var bitrate: int
    var fileSize: Option<int>

    function Snapshot(): Parsed
      reads this
    {
      Parsed(channel, languages, FormatFields(resolution, frameRate, mediaContainer), bitrate, fileSize)
    }

    constructor()
      ensures Snapshot() == Unparsed
    {
      channel := None;
      languages := [];
      resolution := None;
      frameRate := 0;
      mediaContainer := None;
      bitrate := 0;
      fileSize := None;
    }

    /** One element of the forEach. */
    method ParseItem(e: MetaElement, p: ZKFPatterns, sizeOf: String -> Option<int>) returns (r: Result<()>)
      modifies this
      ensures r.Fail? <==> ItemOf(old(Snapshot()), e, p, sizeOf).Fail?
      ensures r.Fail? ==> r.error == ItemOf(old(Snapshot()), e, p, sizeOf).error
      ensures r.Ok? ==> Snapshot() == ItemOf(old(Snapshot()), e, p, sizeOf).value
    {
      if e.text == ChannelTag {
        r := ParseChannel(e, p, sizeOf);
      } else if e.text == LanguageTag {
        r := ParseLanguage(e, p, sizeOf);
      } else if e.text == FormatTag {
        r := ParseFormat(e, p, sizeOf);
      } else if e.text == BitrateTag {
        r := ParseBitrate(e, p, sizeOf);
      } else if e.text == SizeTag {
        r := ParseSize(e, p, sizeOf);
      } else {
        r := Ok(());
      }
    }

    /** The CHANNEL case: the cleaned sibling text. */
    method ParseChannel(e: MetaElement, p: ZKFPatterns, sizeOf: String -> Option<int>) returns (r: Result<()>)
      requires e.text == ChannelTag
      modifies this
      ensures r.Fail? <==> ItemOf(old(Snapshot()), e, p, sizeOf).Fail?
      ensures r.Fail? ==> r.error == ItemOf(old(Snapshot()), e, p, sizeOf).error
      ensures r.Ok? ==> Snapshot() == ItemOf(old(Snapshot()), e, p, sizeOf).value
    {
      if e.sibling.None? {
        return Fail(NullPointer);
      }
      channel := Some(CleanMetadata(e.sibling.value));
      return Ok(());
    }

    /** The LANGUAGE case: the language of the next bold element is appended. */
    method ParseLanguage(e: MetaElement, p: ZKFPatterns, sizeOf: String -> Option<int>) returns (r: Result<()>)
      requires e.text == LanguageTag
      modifies this
      ensures r.Fail? <==> ItemOf(old(Snapshot()), e, p, sizeOf).Fail?
      ensures r.Fail? ==> r.error == ItemOf(old(Snapshot()), e, p, sizeOf).error
      ensures r.Ok? ==> Snapshot() == ItemOf(old(Snapshot()), e, p, sizeOf).value
    {
      if e.nextBoldText.None? {
        return Fail(NullPointer);
      }
      var language := LanguageOf(e.nextBoldText.value);
      if language.Fail? {
        return Fail(language.error);
      }
      languages := languages + [language.value];
      return Ok(());
    }

    /** The FORMAT case: the sibling text read into the three format fields. */
    method ParseFormat(e: MetaElement, p: ZKFPatterns, sizeOf: String -> Option<int>) returns (r: Result<()>)
      requires e.text == FormatTag
      modifies this
      ensures r.Fail? <==> ItemOf(old(Snapshot()), e, p, sizeOf).Fail?
      ensures r.Fail? ==> r.error == ItemOf(old(Snapshot()), e, p, sizeOf).error
      ensures r.Ok? ==> Snapshot() == ItemOf(old(Snapshot()), e, p, sizeOf).value
    {
      if e.sibling.None? {
        return Fail(NullPointer);
      }
      var f := ReadFormat(FormatFields(resolution, frameRate, mediaContainer), e.sibling.value, p);
      resolution, frameRate, mediaContainer := f.resolution, f.frameRate, f.mediaContainer;
      return Ok(());
    }

    /** The BITRATE case: the trimmed sibling text read as a bitrate. */
    method ParseBitrate(e: MetaElement, p: ZKFPatterns, sizeOf: String -> Option<int>) returns (r: Result<()>)
      requires e.text == BitrateTag
      modifies this
      ensures r.Fail? <==> ItemOf(old(Snapshot()), e, p, sizeOf).Fail?
      ensures r.Fail? ==> r.error == ItemOf(old(Snapshot()), e, p, sizeOf).error
      ensures r.Ok? ==> Snapshot() == ItemOf(old(Snapshot()), e, p, sizeOf).value
    {
      if e.sibling.None? {
        return Fail(NullPointer);
      }
      bitrate := BitrateOf(bitrate, Trim(CleanMetadata(e.sibling.value)), p);
      return Ok(());
    }

    /** The SIZE case: the cleaned sibling text read as a file size. */
    method ParseSize(e: MetaElement, p: ZKFPatterns, sizeOf: String -> Option<int>) returns (r: Result<()>)
      requires e.text == SizeTag
      modifies this
      ensures r.Fail? <==> ItemOf(old(Snapshot()), e, p, sizeOf).Fail?
      ensures r.Fail? ==> r.error == ItemOf(old(Snapshot()), e, p, sizeOf).error
      ensures r.Ok? ==> Snapshot() == ItemOf(old(Snapshot()), e, p, sizeOf).value
    {
      if e.sibling.None? {
        return Fail(NullPointer);
      }
      fileSize := sizeOf(CleanMetadata(e.sibling.value));
      return Ok(());
    }

    /** parseEventMetadata: the forEach over the elements. */
    method ParseEventMetadata(es: seq<MetaElement>, p: ZKFPatterns, sizeOf: String -> Option<int>) returns (r: Result<()>)
      modifies this
      ensures r.Fail? <==> Items(old(Snapshot()), es, p, sizeOf).Fail?
      ensures r.Fail? ==> r.error == Items(old(Snapshot()), es, p, sizeOf).error
      ensures r.Ok? ==> Snapshot() == Items(old(Snapshot()), es, p, sizeOf).value
    {
      ghost var start := Snapshot();
      var i := 0;
      while i < |es|
        invariant 0 <= i <= |es|
        invariant Items(start, es[..i], p, sizeOf) == Ok(Snapshot())
      {
        ghost var before := Snapshot();
        var step := ParseItem(es[i], p, sizeOf);
        assert es[..i + 1][..i] == es[..i];
        if step.Fail? {
          ItemsFailFrom(start, es, i, p, sizeOf);
          return Fail(step.error);
        }
        i := i + 1;
      }
      assert es[..i] == es;
      return Ok(());
    }
  }

  /** A prefix whose last element throws makes the whole run throw the same exception. */
  lemma {:induction false} ItemsFailFrom(m: Parsed, es: seq<MetaElement>, i: nat, p: ZKFPatterns, sizeOf: String -> Option<int>)
    requires i < |es| && Items(m, es[..i], p, sizeOf).Ok?
    requires ItemOf(Items(m, es[..i], p, sizeOf).value, es[i], p, sizeOf).Fail?
    ensures Items(m, es, p, sizeOf) == Fail(ItemOf(Items(m, es[..i], p, sizeOf).value, es[i], p, sizeOf).error)
    decreases |es| - i
  {
    assert es[..i + 1][..i] == es[..i];
    if i + 1 == |es| {
      assert es[..i + 1] == es;
    } else {
      ItemsFailLater(m, es, i + 1, p, sizeOf);
    }
  }

  /** A prefix that throws makes every longer run throw the same exception. */
  lemma {:induction false} ItemsFailLater(m: Parsed, es: seq<MetaElement>, j: nat, p: ZKFPatterns, sizeOf: String -> Option<int>)
    requires j <= |es| && Items(m, es[..j], p, sizeOf).Fail?
    ensures Items(m, es, p, sizeOf) == Items(m, es[..j], p, sizeOf)
    decreases |es| - j
  {
    if j == |es| {
      assert es[..j] == es;
    } else {
      assert es[..j + 1][..j] == es[..j];
      ItemsFailLater(m, es, j + 1, p, sizeOf);
    }
  }

  /** The source createFileSource builds from the parser's fields, with an empty set of files. */
  function FileSourceOf(m: Parsed): (r: EventFileSource)
    ensures r.channel == m.channel && r.languages == m.languages && r.fileSize == m.fileSize
    ensures r.resolution == m.format.resolution && r.frameRate == m.format.frameRate
    ensures r.mediaContainer == m.format.mediaContainer && r.bitrate == Some(m.bitrate)
    ensures r.eventFiles == [] && r.eventFileSrcId.None?
  {
    EmptySource.(channel := m.channel, languages := m.languages, resolution := m.format.resolution,
                 frameRate := m.format.frameRate, mediaContainer := m.format.mediaContainer,
                 bitrate := Some(m.bitrate), fileSize := m.fileSize)
  }

  /** createFileSource as a value. */
  function FileSourceFor(es: seq<MetaElement>, p: ZKFPatterns, sizeOf: String -> Option<int>): Result<EventFileSource>
  {
    var m :- Items(Unparsed, es, p, sizeOf);
    Ok(FileSourceOf(m))
  }

  /** createFileSource: a new parser over the elements, its fields copied into a new source. */
  method CreateFileSource(es: seq<MetaElement>, p: ZKFPatterns, sizeOf: String -> Option<int>)
    returns (r: Result<EventFileSource>)
    ensures r == FileSourceFor(es, p, sizeOf)
    ensures r.Ok? ==> r.value.languages == LanguagesOf(es) && r.value.eventFiles == []
  {
    var parser := new MetadataParser();
    var parsed := parser.ParseEventMetadata(es, p, sizeOf);
    if parsed.Fail? {
      return Fail(parsed.error);
    }
    LanguagesInOrder(Unparsed, es, p, sizeOf);
    return Ok(FileSourceOf(parser.Snapshot()));
  }
}
