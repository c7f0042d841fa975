/**
 * The artwork service (src/main/java/net/tomasbot/matchday/api/service/ArtworkService.java):
 * image validation, the file extension taken from a content type, the choice
 * of a contrasting colour pair, and deleting an artwork from a collection
 * and from disk.
 *
 * The artwork collection (ArtworkCollection.java is not part of this model)
 * is read as an ordered list of artworks with a selected index: the selected
 * artwork is the one at that index when it is in range, and remove and
 * indexOf act on the first equal entry. The disk is the set of existing file
 * paths; whether File.delete succeeds is a parameter. Whether two colours
 * contrast is decided on floating-point luminance, which is a parameter too.
 */
module ArtworkService {
  import opened Outcome
  import opened JavaString
  import opened Regex
  import opened JavaList

  // ---------------------------------------------------------------------
  // validateImage
  // ---------------------------------------------------------------------

  /** validateImage: InvalidArtworkException unless both dimensions lie within the configured bounds. */
  function ValidateImage(height: int, width: int, minDimension: int, maxDimension: int): (r: Result<()>)
    ensures r.Ok? <==> minDimension <= height <= maxDimension && minDimension <= width <= maxDimension
    ensures r.Fail? ==> r.error == InvalidArtwork
  {
    if height > maxDimension || height < minDimension || width > maxDimension || width < minDimension then
      Fail(InvalidArtwork)
    else Ok(())
  }

  // ---------------------------------------------------------------------
  // getArtworkExtension
  // ---------------------------------------------------------------------

  /** The literal start of IMAGE_CONTENT_TYPE_PATTERN. */
  const ImagePrefix: String := "image/"

  /** The class [+\w]. */
  predicate IsWordOrPlus(c: char)
  {
    IsWordChar(c) || c == '+'
  }

  /**
   * IMAGE_CONTENT_TYPE_PATTERN, image/(\w+)[+\w]*, matched at a position:
   * the prefix, at least one word character, then the greedy run of word
   * characters and pluses.
   */
  const ImageTypePattern: Matcher :=
    (s: String, i: nat) =>
      if OccursAt(s, ImagePrefix, i) && RunLength(IsWordChar, s, i + |ImagePrefix|) > 0
      then Some(i + |ImagePrefix| + RunLength(IsWordOrPlus, s, i + |ImagePrefix|))
      else None

  /**
   * getArtworkExtension: InvalidArtworkException for a null content type or
   * one in which the pattern is not found; otherwise group 1, the word
   * characters right after the first "image/" the pattern matches at.
   */
  function ArtworkExtension(contentType: Option<String>): (r: Result<String>)
    ensures contentType.None? ==> r == Fail(InvalidArtwork)
    ensures r.Fail? ==> r.error == InvalidArtwork
    ensures r.Ok? ==> |r.value| > 0 && forall k :: 0 <= k < |r.value| ==> IsWordChar(r.value[k])
  {
    if contentType.None? then Fail(InvalidArtwork)
    else
      var s := contentType.value;
      match Find(ImageTypePattern, s, 0)
      case None => Fail(InvalidArtwork)
      case Some(sp) =>
        var g := sp.start + |ImagePrefix|;
        Ok(s[g..g + RunLength(IsWordChar, s, g)])
  }

  /** An "image/" type with a word subtype, then anything that is not a word character, gives that subtype. */
  lemma ExtensionOfImageType(w: String, rest: String)
    requires |w| > 0 && forall k :: 0 <= k < |w| ==> IsWordChar(w[k])
    requires |rest| > 0 ==> !IsWordChar(rest[0])
    ensures ArtworkExtension(Some(ImagePrefix + w + rest)) == Ok(w)
  {
    var s := ImagePrefix + w + rest;
    assert s[..|ImagePrefix|] == ImagePrefix;
    assert OccursAt(s, ImagePrefix, 0);
    RunLengthExact(IsWordChar, s, |ImagePrefix|, |w|);
    assert MatchEnd(ImageTypePattern, s, 0).Some?;
    assert s[|ImagePrefix|..|ImagePrefix| + |w|] == w;
  }

  /** For example, image/svg+xml gives "svg". */
  lemma SvgExtension()
    ensures ArtworkExtension(Some("image/svg+xml")) == Ok("svg")
  {
    var w, rest := "svg", "+xml";
    assert IsWordChar(w[0]) && IsWordChar(w[1]) && IsWordChar(w[2]);
    assert !IsWordChar(rest[0]);
    ExtensionOfImageType(w, rest);
    assert ImagePrefix + w + rest == "image/svg+xml";
  }

  /** A content type without "image/" in it has no extension. */
  lemma NonImageTypeThrows(s: String)
    requires !Contains(s, ImagePrefix)
    ensures ArtworkExtension(Some(s)) == Fail(InvalidArtwork)
  {
    ContainsIff(s, ImagePrefix);
    FoundIff(ImageTypePattern, s);
  }

  // ---------------------------------------------------------------------
  // getContrastingColorPair
  // ---------------------------------------------------------------------

  datatype Color = Color(red: int, green: int, blue: int)

  /** The first colour of the list that contrasts with c1. */
  function FirstPartner(c1: Color, colors2: seq<Color>, contrasting: (Color, Color) -> bool): (r: Option<Color>)
    ensures r.None? <==> forall j :: 0 <= j < |colors2| ==> !contrasting(c1, colors2[j])
    ensures r.Some? ==> r.value in colors2 && contrasting(c1, r.value)
  {
    if colors2 == [] then None
    else if contrasting(c1, colors2[0]) then Some(colors2[0])
    else
      assert forall j :: 1 <= j < |colors2| ==> colors2[j] == colors2[1..][j - 1];
      FirstPartner(c1, colors2[1..], contrasting)
  }

  /** The first contrasting pair, taking the colours of the first list in order and pairing each with the second list. */
  function FirstContrasting(colors1: seq<Color>, colors2: seq<Color>, contrasting: (Color, Color) -> bool)
    : (r: Option<(Color, Color)>)
    ensures r.None? <==> forall i, j :: 0 <= i < |colors1| && 0 <= j < |colors2| ==> !contrasting(colors1[i], colors2[j])
    ensures r.Some? ==> r.value.0 in colors1 && r.value.1 in colors2 && contrasting(r.value.0, r.value.1)
  {
    if colors1 == [] then None
    else match FirstPartner(colors1[0], colors2, contrasting)
      case Some(c2) => Some((colors1[0], c2))
      case None =>
        assert forall i :: 1 <= i < |colors1| ==> colors1[i] == colors1[1..][i - 1];
        FirstContrasting(colors1[1..], colors2, contrasting)
  }

  /**
   * getContrastingColorPair: null when either list is null or empty;
   * otherwise the first contrasting pair, or the two primary (first)
   * colours when no pair contrasts.
   */
  function ContrastingColorPair(colors1: Option<seq<Color>>, colors2: Option<seq<Color>>,
                                contrasting: (Color, Color) -> bool): (r: Option<(Color, Color)>)
    ensures r.None? <==> colors1.None? || |colors1.value| == 0 || colors2.None? || |colors2.value| == 0
    ensures r.Some? ==> r.value.0 in colors1.value && r.value.1 in colors2.value
    ensures r.Some? && (exists i, j :: 0 <= i < |colors1.value| && 0 <= j < |colors2.value|
                                       && contrasting(colors1.value[i], colors2.value[j])) ==>
              contrasting(r.value.0, r.value.1)
    ensures r.Some? && (forall i, j :: 0 <= i < |colors1.value| && 0 <= j < |colors2.value| ==>
                                       !contrasting(colors1.value[i], colors2.value[j])) ==>
              r.value == (colors1.value[0], colors2.value[0])
  {
    if colors1.None? || |colors1.value| == 0 || colors2.None? || |colors2.value| == 0 then None
    else match FirstContrasting(colors1.value, colors2.value, contrasting)
      case Some(pair) => Some(pair)
      case None => Some((colors1.value[0], colors2.value[0]))
  }

  /** getContrastingColorPair: the outer loop over the first list, the inner loop in PartnerOf. */
  method GetContrastingColorPair(colors1: Option<seq<Color>>, colors2: Option<seq<Color>>,
                                 contrasting: (Color, Color) -> bool) returns (r: Option<(Color, Color)>)
    ensures r == ContrastingColorPair(colors1, colors2, contrasting)
  {
    if colors1.None? || |colors1.value| == 0 || colors2.None? || |colors2.value| == 0 {
      return None;
    }
    var c1s, c2s := colors1.value, colors2.value;
    var i := 0;
    while i < |c1s|
      invariant i <= |c1s|
      invariant FirstContrasting(c1s, c2s, contrasting) == FirstContrasting(c1s[i..], c2s, contrasting)
    {
      var partner := PartnerOf(c1s[i], c2s, contrasting);
      if partner.Some? {
        return Some((c1s[i], partner.value));
      }
      assert c1s[i..][1..] == c1s[i + 1..];
      i := i + 1;
    }
    return Some((c1s[0], c2s[0]));
  }

  /** The inner loop of getContrastingColorPair: the second list scanned for a colour contrasting with c1. */
  method PartnerOf(c1: Color, c2s: seq<Color>, contrasting: (Color, Color) -> bool) returns (r: Option<Color>)
    ensures r == FirstPartner(c1, c2s, contrasting)
  {
    var j := 0;
    while j < |c2s|
      invariant j <= |c2s|
      invariant FirstPartner(c1, c2s, contrasting) == FirstPartner(c1, c2s[j..], contrasting)
    {
      if contrasting(c1, c2s[j]) {
        return Some(c2s[j]);
      }
      assert c2s[j..][1..] == c2s[j + 1..];
      j := j + 1;
    }
    return None;
  }

  // ---------------------------------------------------------------------
  // Deleting artwork
  // ---------------------------------------------------------------------

  /** An artwork: its ID and the path of its image file. */
  datatype Artwork = Artwork(id: int, file: String)

  /**
   * deleteArtworkFromDisk: nothing to do for a null artwork or a missing
   * file; otherwise the file is deleted, and IOException when that fails.
   */
  function DeleteFromDisk(artwork: Option<Artwork>, disk: set<String>, deletes: String -> bool)
    : (r: Result<set<String>>)
    ensures artwork.None? ==> r == Ok(disk)
    ensures r.Fail? ==> r.error == IO && artwork.Some? && artwork.value.file in disk
    ensures r.Ok? ==> r.value <= disk && disk - r.value <= (if artwork.Some? then {artwork.value.file} else {})
    ensures r.Ok? && artwork.Some? ==> artwork.value.file !in r.value
    ensures artwork.Some? && artwork.value.file in disk ==> (r.Ok? <==> deletes(artwork.value.file))
  {
    if artwork.None? then Ok(disk)
    else if artwork.value.file !in disk then Ok(disk)
    else if deletes(artwork.value.file) then Ok(disk - {artwork.value.file})
    else Fail(IO)
  }

  /** The artwork with the ID, the first one when several share it. */
  function ById(artworks: seq<Artwork>, id: int): (r: Option<Artwork>)
    ensures r.Some? ==> r.value in artworks && r.value.id == id
    ensures r.None? <==> forall k :: 0 <= k < |artworks| ==> artworks[k].id != id
  {
    if artworks == [] then None
    else if artworks[0].id == id then Some(artworks[0])
    else
      assert forall k :: 1 <= k < |artworks| ==> artworks[k] == artworks[1..][k - 1];
      ById(artworks[1..], id)
  }

  /** The selected artwork: the one at the selected index, when the index is in range. */
  function SelectedIn(artworks: seq<Artwork>, selectedIndex: int): (r: Option<Artwork>)
    ensures r.Some? <==> 0 <= selectedIndex < |artworks|
    ensures r.Some? ==> r.value == artworks[selectedIndex]
  {
    if 0 <= selectedIndex < |artworks| then Some(artworks[selectedIndex]) else None
  }

  /**
   * Deleting an artwork other than the selected one keeps the same artwork
   * selected: its index in the shortened list points at it.
   */
  lemma SelectionFollowsArtwork(artworks: seq<Artwork>, selected: Artwork, deleted: Artwork)
    requires selected in artworks && selected != deleted
    ensures var rest := RemoveFirst(artworks, deleted);
      SelectedIn(rest, IndexOf(rest, selected)) == Some(selected)
  {
    RemoveKeepsOthers(artworks, deleted, selected);
  }

  class ArtworkCollection {
    var collection: seq<Artwork>
    var selectedIndex: int

    constructor (collection: seq<Artwork>, selectedIndex: int)
      ensures this.collection == collection && this.selectedIndex == selectedIndex
    {
      this.collection := collection;
      this.selectedIndex := selectedIndex;
    }

    function Selected(): Option<Artwork>
      reads this
    {
      SelectedIn(collection, selectedIndex)
    }
  }

  /**
   * deleteArtworkFromCollection: the file is deleted first (IOException
   * stops everything); the artwork is removed; with an artwork selected,
   * deleting that one selects index 0 and deleting another re-selects the
   * previously selected artwork at its new index; with nothing selected the
   * index stays. A null artwork with a selection throws on its ID.
   */
  method DeleteArtworkFromCollection(c: ArtworkCollection, artwork: Option<Artwork>, disk: set<String>,
                                     deletes: String -> bool) returns (r: Result<set<String>>)
    modifies c
    ensures DeleteFromDisk(artwork, disk, deletes).Fail? ==>
              r == Fail(IO) && c.collection == old(c.collection) && c.selectedIndex == old(c.selectedIndex)
    ensures DeleteFromDisk(artwork, disk, deletes).Ok? ==>
              c.collection == if artwork.Some? then RemoveFirst(old(c.collection), artwork.value) else old(c.collection)
    ensures DeleteFromDisk(artwork, disk, deletes).Ok? && old(c.Selected()).None? ==>
              r == DeleteFromDisk(artwork, disk, deletes) && c.selectedIndex == old(c.selectedIndex)
    ensures DeleteFromDisk(artwork, disk, deletes).Ok? && old(c.Selected()).Some? && artwork.None? ==>
              r == Fail(NullPointer) && c.selectedIndex == old(c.selectedIndex)
    ensures DeleteFromDisk(artwork, disk, deletes).Ok? && old(c.Selected()).Some? && artwork.Some? ==>
              r == DeleteFromDisk(artwork, disk, deletes)
              && (old(c.Selected()).value.id == artwork.value.id ==> c.selectedIndex == 0)
              && (old(c.Selected()).value.id != artwork.value.id ==> c.Selected() == old(c.Selected()))
  {
    var diskAfter := DeleteFromDisk(artwork, disk, deletes);
    if diskAfter.Fail? {
      return Fail(IO);
    }
    var selected := c.Selected();
    if artwork.Some? {
      c.collection := RemoveFirst(c.collection, artwork.value);
    }
    if selected.Some? {
      if artwork.None? {
        return Fail(NullPointer);
      }
      if selected.value.id == artwork.value.id {
        c.selectedIndex := 0;
      } else {
        SelectionFollowsArtwork(old(c.collection), selected.value, artwork.value);
        c.selectedIndex := IndexOf(c.collection, selected.value);
      }
    }
    r := diskAfter;
  }

  /**
   * deleteArtworkFromCollection by ID: the collection's artwork with that ID,
   * null when there is none, deleted as deleteArtworkFromCollection deletes it.
   */
  method DeleteArtworkById(c: ArtworkCollection, artworkId: int, disk: set<String>, deletes: String -> bool)
    returns (r: Result<set<String>>)
    modifies c
    ensures ById(old(c.collection), artworkId).None? && old(c.Selected()).Some? ==> r == Fail(NullPointer)
    ensures ById(old(c.collection), artworkId).None? ==> c.collection == old(c.collection)
    ensures var a := ById(old(c.collection), artworkId);
      DeleteFromDisk(a, disk, deletes).Fail? ==>
        r == Fail(IO) && c.collection == old(c.collection) && c.selectedIndex == old(c.selectedIndex)
    ensures var a := ById(old(c.collection), artworkId);
      a.Some? && DeleteFromDisk(a, disk, deletes).Ok? ==>
        r == DeleteFromDisk(a, disk, deletes) && c.collection == RemoveFirst(old(c.collection), a.value)
    ensures var a := ById(old(c.collection), artworkId);
      a.Some? && DeleteFromDisk(a, disk, deletes).Ok? && old(c.Selected()).None? ==>
        c.selectedIndex == old(c.selectedIndex)
    ensures var a := ById(old(c.collection), artworkId);
      a.Some? && DeleteFromDisk(a, disk, deletes).Ok? && old(c.Selected()).Some? ==>
        (old(c.Selected()).value.id == artworkId ==> c.selectedIndex == 0)
        && (old(c.Selected()).value.id != artworkId ==> c.Selected() == old(c.Selected()))
  {
    var artwork := ById(c.collection, artworkId);
    r := DeleteArtworkFromCollection(c, artwork, disk, deletes);
  }
}
