/**
 * The ZKFootball file-source metadata parser of the data-source plugin
 * (plugin/datasource/zkfootball/ZKFFileSourceMetadataParser.java):
 * createFileSource runs a new ZKFFileMetadata over the metadata elements and
 * copies its fields into a new EventFileSource. Unlike the older
 * ZKFMetadataParser, each tag's value replaces the one before it: a channel
 * without a following node is the empty text, a language element without a
 * following element gives no language, and each bitrate is read afresh from
 * zero. A tag the switch does not name is passed over.
 */
module ZKFFileSourceMetadataParser {
  import opened Outcome
  import opened JavaString
  import opened EventFileSource
  import opened ZKFMetadata

  /** The fields of a ZKFFileMetadata; the languages are one joined text. */
  datatype FileMetadata = FileMetadata(channel: Option<String>, languages: Option<String>, format: FormatFields,
                                       bitrate: int, fileSize: Option<int>)

  /** A new ZKFFileMetadata before its elements are read. */
  const Unread: FileMetadata := FileMetadata(None, None, FormatFields(None, 0, None), 0, None)

  /** parseChannel: the cleaned text after the element, or the empty text when nothing follows it. */
  function ChannelOf(e: MetaElement): (r: String)
    ensures e.sibling.None? ==> r == []
  {
    if e.sibling.None? then [] else CleanMetadata(e.sibling.value)
  }

  /**
   * parseLanguages: the capitalised language joined with ", " into one text;
   * a missing element after the tag is a NullPointerException, caught, so
   * the list stays empty and the text is empty; an empty language's
   * StringIndexOutOfBoundsException is not caught.
   */
  function LanguagesText(e: MetaElement): (r: Result<String>)
    ensures e.nextBoldText.None? ==> r == Ok([])
    ensures e.nextBoldText.Some? ==> r == LanguageOf(e.nextBoldText.value)
  {
    if e.nextBoldText.None? then Ok([]) else LanguageOf(e.nextBoldText.value)
  }

  /**
   * One pass of the forEach. The channel and the languages never throw a
   * NullPointerException; the format, bitrate and size read the node after
   * the element outside any try, so a missing one does.
   */
  function ItemOf(m: FileMetadata, e: MetaElement, p: ZKFPatterns, sizeOf: String -> Option<int>): (r: Result<FileMetadata>)
    ensures e.text !in {ChannelTag, LanguageTag, FormatTag, BitrateTag, SizeTag} ==> r == Ok(m)
    ensures e.text == ChannelTag ==> r == Ok(m.(channel := Some(ChannelOf(e))))
    ensures r.Fail? ==> r.error in {NullPointer, IndexOutOfBounds}
    ensures r.Fail? && r.error == NullPointer ==> e.sibling.None? && e.text in {FormatTag, BitrateTag, SizeTag}
    ensures r.Ok? && e.text != BitrateTag ==> r.value.bitrate == m.bitrate
    ensures r.Ok? && e.text == BitrateTag ==>
              e.sibling.Some? && r.value.bitrate == BitrateOf(0, Trim(CleanMetadata(e.sibling.value)), p)
  {
    if e.text == ChannelTag then Ok(m.(channel := Some(ChannelOf(e))))
    else if e.text == LanguageTag then
      var text :- LanguagesText(e);
      Ok(m.(languages := Some(text)))
    else if e.text == FormatTag then
      if e.sibling.None? then Fail(NullPointer) else Ok(m.(format := Format(m.format, e.sibling.value, p)))
    else if e.text == BitrateTag then
      if e.sibling.None? then Fail(NullPointer)
      else Ok(m.(bitrate := BitrateOf(0, Trim(CleanMetadata(e.sibling.value)), p)))
    else if e.text == SizeTag then
      if e.sibling.None? then Fail(NullPointer) else Ok(m.(fileSize := sizeOf(CleanMetadata(e.sibling.value))))
    else Ok(m)
  }

  /** parseEventMetadata: the elements in order (defined from the end for the loop); the first exception escapes. */
  function Items(m: FileMetadata, es: seq<MetaElement>, p: ZKFPatterns, sizeOf: String -> Option<int>)
    : Result<FileMetadata>
  {
    if es == [] then Ok(m)
    else
      var prev :- Items(m, es[..|es| - 1], p, sizeOf);
      ItemOf(prev, es[|es| - 1], p, sizeOf)
  }

  /** The last element with the tag, if any. */
  function LastTagged(es: seq<MetaElement>, tag: String): (r: Option<MetaElement>)
    ensures r.Some? ==> r.value in es && r.value.text == tag
    ensures r.None? ==> forall k :: 0 <= k < |es| ==> es[k].text != tag
  {
    if es == [] then None
    else if es[|es| - 1].text == tag then Some(es[|es| - 1])
    else LastTagged(es[..|es| - 1], tag)
  }

  /** A later channel element overwrites the earlier one: the channel is that of the last one. */
  lemma {:induction false} LastChannelWins(m: FileMetadata, es: seq<MetaElement>, p: ZKFPatterns,
                                           sizeOf: String -> Option<int>)
    ensures var r := Items(m, es, p, sizeOf);
            r.Ok? ==> r.value.channel == (match LastTagged(es, ChannelTag)
                                          case None => m.channel
                                          case Some(e) => Some(ChannelOf(e)))
  {
    if es != [] {
      LastChannelWins(m, es[..|es| - 1], p, sizeOf);
    }
  }

  /**
   * A later language element overwrites the earlier one: the languages are
   * the text of the last one, not an accumulation.
   */
  lemma {:induction false} LastLanguageWins(m: FileMetadata, es: seq<MetaElement>, p: ZKFPatterns,
                                            sizeOf: String -> Option<int>)
    ensures var r := Items(m, es, p, sizeOf);
            r.Ok? && LastTagged(es, LanguageTag).None? ==> r.value.languages == m.languages
    ensures var r := Items(m, es, p, sizeOf);
            r.Ok? && LastTagged(es, LanguageTag).Some? ==>
              r.value.languages.Some? && LanguagesText(LastTagged(es, LanguageTag).value) == Ok(r.value.languages.value)
  {
    if es != [] {
      var n := |es| - 1;
      LastLanguageWins(m, es[..n], p, sizeOf);
      ItemsStep(m, es, p, sizeOf);
      if es[n].text == LanguageTag {
        assert LastTagged(es, LanguageTag) == Some(es[n]);
      } else {
        assert LastTagged(es, LanguageTag) == LastTagged(es[..n], LanguageTag);
      }
    }
  }

  /** Each bitrate element is read from zero: the bitrate is that of the last one, whatever came before. */
  lemma {:induction false} LastBitrateWins(m: FileMetadata, es: seq<MetaElement>, p: ZKFPatterns,
                                           sizeOf: String -> Option<int>)
    ensures var r := Items(m, es, p, sizeOf);
            r.Ok? && LastTagged(es, BitrateTag).None? ==> r.value.bitrate == m.bitrate
    ensures var r := Items(m, es, p, sizeOf);
            r.Ok? && LastTagged(es, BitrateTag).Some? ==>
              var e := LastTagged(es, BitrateTag).value;
              e.sibling.Some? && r.value.bitrate == BitrateOf(0, Trim(CleanMetadata(e.sibling.value)), p)
  {
    if es != [] {
      var n := |es| - 1;
      LastBitrateWins(m, es[..n], p, sizeOf);
      ItemsStep(m, es, p, sizeOf);
      if es[n].text == BitrateTag {
        assert LastTagged(es, BitrateTag) == Some(es[n]);
      } else {
        assert LastTagged(es, BitrateTag) == LastTagged(es[..n], BitrateTag);
      }
    }
  }

  /** A run that completes completed on all but its last element, then read that one. */
  lemma ItemsStep(m: FileMetadata, es: seq<MetaElement>, p: ZKFPatterns, sizeOf: String -> Option<int>)
    requires es != []
    ensures Items(m, es, p, sizeOf).Ok? ==>
              && Items(m, es[..|es| - 1], p, sizeOf).Ok?
              && Items(m, es, p, sizeOf) == ItemOf(Items(m, es[..|es| - 1], p, sizeOf).value, es[|es| - 1], p, sizeOf)
  { }

  /**
   * The parse throws only a NullPointerException, for a format, bitrate or
   * size element with nothing after it, or a StringIndexOutOfBoundsException.
   */
  lemma {:induction false} ItemsFailures(m: FileMetadata, es: seq<MetaElement>, p: ZKFPatterns, sizeOf: String -> Option<int>)
    ensures var r := Items(m, es, p, sizeOf);
            r.Fail? ==> r.error in {NullPointer, IndexOutOfBounds}
                        && (r.error == NullPointer ==>
                              exists k :: 0 <= k < |es| && es[k].sibling.None? && es[k].text in {FormatTag, BitrateTag, SizeTag})
  {
    if es != [] {
      var n := |es| - 1;
      ItemsFailures(m, es[..n], p, sizeOf);
      var prev := Items(m, es[..n], p, sizeOf);
      if prev.Fail? && prev.error == NullPointer {
        var k :| 0 <= k < n && es[..n][k].sibling.None? && es[..n][k].text in {FormatTag, BitrateTag, SizeTag};
        assert es[k] == es[..n][k];
      }
    }
  }

  /** ZKFFileMetadata: the fields its constructor's parse sets. */
  class ZKFFileMetadata {
    var channel: Option<String>
    var languages: Option<String>
    var resolution: Option<Resolution>
    var frameRate: int
    var mediaContainer: Option<String>
    var bitrate: int
    var fileSize: Option<int>

    function Snapshot(): FileMetadata
      reads this
    {
      FileMetadata(channel, languages, FormatFields(resolution, frameRate, mediaContainer), bitrate, fileSize)
    }

    constructor()
      ensures Snapshot() == Unread
    {
      channel := None;
      languages := None;
      resolution := None;
      frameRate := 0;
      mediaContainer := None;
      bitrate := 0;
      fileSize := None;
    }

    /** One element of the forEach. */
    method ParseItem(e: MetaElement, p: ZKFPatterns, sizeOf: String -> Option<int>) returns (r: Result<()>)
      modifies this
      ensures r.Fail? <==> ItemOf(old(Snapshot()), e, p, sizeOf).Fail?
      ensures r.Fail? ==> r.error == ItemOf(old(Snapshot()), e, p, sizeOf).error
      ensures r.Ok? ==> Snapshot() == ItemOf(old(Snapshot()), e, p, sizeOf).value
    {
      if e.text == ChannelTag {
        channel := Some(ChannelOf(e));
        r := Ok(());
      } else if e.text == LanguageTag {
        r := ParseLanguages(e, p, sizeOf);
      } else if e.text == FormatTag {
        r := ParseFormat(e, p, sizeOf);
      } else if e.text == BitrateTag {
        r := ParseBitrate(e, p, sizeOf);
      } else if e.text == SizeTag {
        r := ParseSize(e, p, sizeOf);
      } else {
        r := Ok(());
      }
    }

    /** The LANGUAGE case: the languages text replaces the field. */
    method ParseLanguages(e: MetaElement, p: ZKFPatterns, sizeOf: String -> Option<int>) returns (r: Result<()>)
      requires e.text == LanguageTag
      modifies this
      ensures r.Fail? <==> ItemOf(old(Snapshot()), e, p, sizeOf).Fail?
      ensures r.Fail? ==> r.error == ItemOf(old(Snapshot()), e, p, sizeOf).error
      ensures r.Ok? ==> Snapshot() == ItemOf(old(Snapshot()), e, p, sizeOf).value
    {
      var text := LanguagesText(e);
      if text.Fail? {
        return Fail(text.error);
      }
      languages := Some(text.value);
      return Ok(());
    }

    /** The FORMAT case: the sibling text read into the three format fields. */
    method ParseFormat(e: MetaElement, p: ZKFPatterns, sizeOf: String -> Option<int>) returns (r: Result<()>)
      requires e.text == FormatTag
      modifies this
      ensures r.Fail? <==> ItemOf(old(Snapshot()), e, p, sizeOf).Fail?
      ensures r.Fail? ==> r.error == ItemOf(old(Snapshot()), e, p, sizeOf).error
      ensures r.Ok? ==> Snapshot() == ItemOf(old(Snapshot()), e, p, sizeOf).value
    {
      if e.sibling.None? {
        return Fail(NullPointer);
      }
      var f := ReadFormat(FormatFields(resolution, frameRate, mediaContainer), e.sibling.value, p);
      resolution, frameRate, mediaContainer := f.resolution, f.frameRate, f.mediaContainer;
      return Ok(());
    }

    /** The BITRATE case: the trimmed sibling text read as a bitrate from zero. */
    method ParseBitrate(e: MetaElement, p: ZKFPatterns, sizeOf: String -> Option<int>) returns (r: Result<()>)
      requires e.text == BitrateTag
      modifies this
      ensures r.Fail? <==> ItemOf(old(Snapshot()), e, p, sizeOf).Fail?
      ensures r.Fail? ==> r.error == ItemOf(old(Snapshot()), e, p, sizeOf).error
      ensures r.Ok? ==> Snapshot() == ItemOf(old(Snapshot()), e, p, sizeOf).value
    {
      if e.sibling.None? {
        return Fail(NullPointer);
      }
      bitrate := BitrateOf(0, Trim(CleanMetadata(e.sibling.value)), p);
      return Ok(());
    }

    /** The SIZE case: the cleaned sibling text read as a file size. */
    method ParseSize(e: MetaElement, p: ZKFPatterns, sizeOf: String -> Option<int>) returns (r: Result<()>)
      requires e.text == SizeTag
      modifies this
      ensures r.Fail? <==> ItemOf(old(Snapshot()), e, p, sizeOf).Fail?
      ensures r.Fail? ==> r.error == ItemOf(old(Snapshot()), e, p, sizeOf).error
      ensures r.Ok? ==> Snapshot() == ItemOf(old(Snapshot()), e, p, sizeOf).value
    {
      if e.sibling.None? {
        return Fail(NullPointer);
      }
      fileSize := sizeOf(CleanMetadata(e.sibling.value));
      return Ok(());
    }

    /** parseEventMetadata: the forEach over the elements. */
    method ParseEventMetadata(es: seq<MetaElement>, p: ZKFPatterns, sizeOf: String -> Option<int>) returns (r: Result<()>)
      modifies this
      ensures r.Fail? <==> Items(old(Snapshot()), es, p, sizeOf).Fail?
      ensures r.Fail? ==> r.error == Items(old(Snapshot()), es, p, sizeOf).error
      ensures r.Ok? ==> Snapshot() == Items(old(Snapshot()), es, p, sizeOf).value
    {
      ghost var start := Snapshot();
      var i := 0;
      while i < |es|
        invariant 0 <= i <= |es|
        invariant Items(start, es[..i], p, sizeOf) == Ok(Snapshot())
      {
        var step := ParseItem(es[i], p, sizeOf);
        assert es[..i + 1][..i] == es[..i];
        if step.Fail? {
          ItemsFailFrom(start, es, i, p, sizeOf);
          return Fail(step.error);
        }
        i := i + 1;
      }
      assert es[..i] == es;
      return Ok(());
    }
  }

  /** A prefix whose last element throws makes the whole run throw the same exception. */
  lemma {:induction false} ItemsFailFrom(m: FileMetadata, es: seq<MetaElement>, i: nat, p: ZKFPatterns,
                                         sizeOf: String -> Option<int>)
    requires i < |es| && Items(m, es[..i], p, sizeOf).Ok?
    requires ItemOf(Items(m, es[..i], p, sizeOf).value, es[i], p, sizeOf).Fail?
    ensures Items(m, es, p, sizeOf) == Fail(ItemOf(Items(m, es[..i], p, sizeOf).value, es[i], p, sizeOf).error)
  {
    assert es[..i + 1][..i] == es[..i];
    ItemsFailLater(m, es, i + 1, p, sizeOf);
  }

  /** A prefix that throws makes every longer run throw the same exception. */
  lemma {:induction false} ItemsFailLater(m: FileMetadata, es: seq<MetaElement>, j: nat, p: ZKFPatterns,
                                          sizeOf: String -> Option<int>)
    requires j <= |es| && Items(m, es[..j], p, sizeOf).Fail?
    ensures Items(m, es, p, sizeOf) == Items(m, es[..j], p, sizeOf)
    decreases |es| - j
  {
    if j == |es| {
      assert es[..j] == es;
    } else {
      assert es[..j + 1][..j] == es[..j];
      ItemsFailLater(m, es, j + 1, p, sizeOf);
    }
  }

  /**
   * The source createFileSource builds. The source's language list is
   * filled with the one joined text, when there is one; nothing sets the
   * files, which start empty.
   */
  function FileSourceOf(m: FileMetadata): (r: EventFileSource)
    ensures r.channel == m.channel && r.fileSize == m.fileSize && r.bitrate == Some(m.bitrate)
    ensures r.resolution == m.format.resolution && r.frameRate == m.format.frameRate
    ensures r.mediaContainer == m.format.mediaContainer
    ensures r.languages == if m.languages.Some? then [m.languages.value] else []
    ensures r.eventFiles == [] && r.eventFileSrcId.None?
  {
    EmptySource.(channel := m.channel, languages := if m.languages.Some? then [m.languages.value] else [],
                 resolution := m.format.resolution, frameRate := m.format.frameRate,
                 mediaContainer := m.format.mediaContainer, bitrate := Some(m.bitrate), fileSize := m.fileSize)
  }

  /** createFileSource as a value. */
  function FileSourceFor(es: seq<MetaElement>, p: ZKFPatterns, sizeOf: String -> Option<int>): Result<EventFileSource>
  {
    var m :- Items(Unread, es, p, sizeOf);
    Ok(FileSourceOf(m))
  }

  /** createFileSource: a new ZKFFileMetadata over the elements, its fields copied into a new source. */
  method CreateFileSource(es: seq<MetaElement>, p: ZKFPatterns, sizeOf: String -> Option<int>)
    returns (r: Result<EventFileSource>)
    ensures r == FileSourceFor(es, p, sizeOf)
    ensures r.Ok? ==> |r.value.languages| <= 1
  {
    var metadata := new ZKFFileMetadata();
    var parsed := metadata.ParseEventMetadata(es, p, sizeOf);
    if parsed.Fail? {
      return Fail(parsed.error);
    }
    return Ok(FileSourceOf(metadata.Snapshot()));
  }
}
