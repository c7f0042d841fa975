/**
 * A video file of an event (model/EventFile.java): which part of the event it
 * holds, where it lives, and the part labels parsed from page text.
 */
module EventFile {
  import opened Outcome
  import opened JavaString

  /** The parts of an event, in declaration order. */
  datatype EventPartIdentifier =
    | DEFAULT | PRE_MATCH | FIRST_HALF | SECOND_HALF | EXTRA_TIME | TROPHY_CEREMONY | POST_MATCH

  /** EventPartIdentifier.values(). */
  const Values: seq<EventPartIdentifier> :=
    [DEFAULT, PRE_MATCH, FIRST_HALF, SECOND_HALF, EXTRA_TIME, TROPHY_CEREMONY, POST_MATCH]

  /** The display name (toString). */
  function Name(p: EventPartIdentifier): String
  {
    match p
    case DEFAULT => ""
    case PRE_MATCH => "Pre-Match"
    case FIRST_HALF => "1st Half"
    case SECOND_HALF => "2nd Half"
    case EXTRA_TIME => "Extra-Time/Penalties"
    case TROPHY_CEREMONY => "Trophy Ceremony"
    case POST_MATCH => "Post-Match"
  }

  /** The sort order of a part. */
  function Order(p: EventPartIdentifier): int
  {
    match p
    case DEFAULT => -1
    case PRE_MATCH => 0
    case FIRST_HALF => 1
    case SECOND_HALF => 2
    case EXTRA_TIME => 3
    case TROPHY_CEREMONY => 4
    case POST_MATCH => 5
  }

  // ---------------------------------------------------------------------
  // The part patterns. Each is a fixed-length sequence of character
  // classes (one alternative per optional character) with an anchoring.
  // ---------------------------------------------------------------------

  /** One position of a pattern: a literal character, a letter in either case, or a set. */
  datatype Atom = Exactly(c: char) | AnyCase(c: char) | OneOf(cs: String)

  predicate AtomMatches(a: Atom, c: char)
  {
    match a
    case Exactly(x) => c == x
    case AnyCase(x) => c == x || c == UpperChar(x)
    case OneOf(cs) => c in cs
  }

  predicate AtomsAt(p: seq<Atom>, s: String, i: nat)
  {
    i + |p| <= |s| && forall k :: 0 <= k < |p| ==> AtomMatches(p[k], s[i + k])
  }

  /** A lower-case word matched in either case, letter by letter (`[Pp][Rr][Ee]`). */
  function Word(w: String): (p: seq<Atom>)
    ensures |p| == |w|
  {
    seq(|w|, k requires 0 <= k < |w| => AnyCase(w[k]))
  }

  /** How a pattern is anchored: not at all, by `^`, or by `^` and `$`. */
  datatype Anchor = Unanchored | AtStart | AtBothEnds

  function AnchorOf(p: EventPartIdentifier): Anchor
  {
    match p
    case PRE_MATCH => AtBothEnds
    case POST_MATCH => AtBothEnds
    case EXTRA_TIME => AtStart
    case TROPHY_CEREMONY => AtStart
    case _ => Unanchored
  }

  /** The alternatives a part's pattern can match; DEFAULT's pattern is the empty one. */
  function Alternatives(p: EventPartIdentifier): seq<seq<Atom>>
  {
    match p
    case DEFAULT => [[]]
    case PRE_MATCH => [Word("pre") + [OneOf("- ")] + Word("match")]
    case FIRST_HALF =>
      [[Exactly('1')] + Word("st") + [Exactly(' ')] + Word("half"),
       [Exactly('1'), Exactly(' ')] + Word("st") + [Exactly(' ')] + Word("half")]
    case SECOND_HALF =>
      [[Exactly('2')] + Word("nd") + [Exactly(' ')] + Word("half"),
       [Exactly('2'), Exactly(' ')] + Word("nd") + [Exactly(' ')] + Word("half")]
    case EXTRA_TIME => [Word("extra") + [OneOf("- ")] + Word("time")]
    case TROPHY_CEREMONY => [Word("trophy")]
    case POST_MATCH => [Word("post") + [OneOf("- ")] + Word("match")]
  }

  /** `$` without MULTILINE: the end of the text, or just before one final line terminator. */
  predicate EndAnchorAt(s: String, e: nat)
  {
    e == |s|
    || (e + 1 == |s| && IsLineTerminator(s[e]))
    || (e + 2 == |s| && s[e] == '\r' && s[e + 1] == '\n')
  }

  /** Matcher.find on a part's pattern. */
  predicate Finds(p: EventPartIdentifier, s: String)
  {
    exists a | a in Alternatives(p) ::
      match AnchorOf(p)
      case Unanchored => exists i: nat | i <= |s| :: AtomsAt(a, s, i)
      case AtStart => AtomsAt(a, s, 0)
      case AtBothEnds => AtomsAt(a, s, 0) && EndAnchorAt(s, |a|)
  }

  /** Matcher.matches on a part's pattern: the whole text is one alternative. */
  predicate FullyMatches(p: EventPartIdentifier, s: String)
  {
    exists a | a in Alternatives(p) :: |a| == |s| && AtomsAt(a, s, 0)
  }

  /** EventPartIdentifier.isPartIdentifier: some part other than DEFAULT is found in s. */
  predicate IsPartIdentifier(s: String)
  {
    Finds(PRE_MATCH, s) || Finds(FIRST_HALF, s) || Finds(SECOND_HALF, s)
    || Finds(EXTRA_TIME, s) || Finds(TROPHY_CEREMONY, s) || Finds(POST_MATCH, s)
  }

  /** The position in values() of the first part, from index i on, whose pattern fully matches s. */
  function FirstFullMatch(s: String, i: nat): (r: Option<nat>)
    requires i <= |Values|
    decreases |Values| - i
    ensures r.Some? ==> i <= r.value < |Values| && FullyMatches(Values[r.value], s)
    ensures r.Some? ==> forall k :: i <= k < r.value ==> !FullyMatches(Values[k], s)
    ensures r.None? ==> forall k :: i <= k < |Values| ==> !FullyMatches(Values[k], s)
  {
    if i == |Values| then None
    else if FullyMatches(Values[i], s) then Some(i)
    else FirstFullMatch(s, i + 1)
  }

  /** The part fromString yields: the first fully matching one, else DEFAULT. */
  function PartOf(s: String): EventPartIdentifier
  {
    match FirstFullMatch(s, 0)
    case Some(k) => Values[k]
    case None => DEFAULT
  }

  lemma OrderIsPosition()
    ensures forall k :: 0 <= k < |Values| ==> Order(Values[k]) == k - 1
  {
  }

  /**
   * EventPartIdentifier.fromString: the loop over values() that stops at the
   * first pattern matching the whole text.
   */
  method FromString(s: String) returns (result: EventPartIdentifier)
    ensures result == PartOf(s)
    ensures result != DEFAULT ==> FullyMatches(result, s)
    ensures forall k :: 0 <= k < |Values| && FullyMatches(Values[k], s) ==>
      Order(result) <= Order(Values[k])
  {
    result := DEFAULT;
    var i := 0;
    while i < |Values|
      invariant 0 <= i <= |Values|
      invariant FirstFullMatch(s, 0) == FirstFullMatch(s, i)
      invariant result == DEFAULT
    {
      if FullyMatches(Values[i], s) {
        result := Values[i];
        break;
      }
      i := i + 1;
    }
    OrderIsPosition();
  }

  /** The empty text, and only it, is DEFAULT by a full match of DEFAULT's empty pattern. */
  lemma DefaultFullMatch(s: String)
    ensures FullyMatches(DEFAULT, s) <==> s == []
  {
    assert [] in Alternatives(DEFAULT);
  }

  /** A full match of an alternative is also found, whatever the anchoring. */
  lemma FullMatchFinds(p: EventPartIdentifier, s: String)
    requires p != DEFAULT && FullyMatches(p, s)
    ensures Finds(p, s)
  {
    var a :| a in Alternatives(p) && |a| == |s| && AtomsAt(a, s, 0);
    assert EndAnchorAt(s, |a|);
  }

  /** A text fromString classifies as a real part is one isPartIdentifier accepts. */
  lemma FromStringIsPartIdentifier(s: String)
    requires PartOf(s) != DEFAULT
    ensures IsPartIdentifier(s)
  {
    FullMatchFinds(PartOf(s), s);
  }

  /** Only the exact part names, in any letter case, are classified, e.g. "1st half" and "Pre-Match". */
  lemma FromStringPreMatch()
    ensures PartOf("Pre-Match") == PRE_MATCH
  {
    assert AtomsAt(Alternatives(PRE_MATCH)[0], "Pre-Match", 0);
    assert !FullyMatches(DEFAULT, "Pre-Match");
    assert Values[1] == PRE_MATCH;
  }

  lemma FromStringSecondHalf()
    ensures PartOf("2nd HALF") == SECOND_HALF
  {
    assert AtomsAt(Alternatives(SECOND_HALF)[0], "2nd HALF", 0);
    assert !FullyMatches(DEFAULT, "2nd HALF");
    assert !FullyMatches(PRE_MATCH, "2nd HALF") by {
      forall a | a in Alternatives(PRE_MATCH) ensures !(|a| == 8 && AtomsAt(a, "2nd HALF", 0)) {
        assert !AtomMatches(a[0], '2');
      }
    }
    assert !FullyMatches(FIRST_HALF, "2nd HALF") by {
      forall a | a in Alternatives(FIRST_HALF) ensures !(|a| == 8 && AtomsAt(a, "2nd HALF", 0)) {
        assert !AtomMatches(a[0], '2');
      }
    }
    assert Values[3] == SECOND_HALF;
  }

  lemma FromStringEmpty()
    ensures PartOf("") == DEFAULT
  {
    assert [] in Alternatives(DEFAULT);
  }

  // ---------------------------------------------------------------------
  // The EventFile entity
  // ---------------------------------------------------------------------

  datatype FFmpegMetadata = FFmpegMetadata(json: String)

  datatype EventFile = EventFile(
    eventFileId: Option<int>,
    title: EventPartIdentifier,
    externalUrl: String,
    internalUrl: Option<String>,
    metadata: Option<FFmpegMetadata>,
    lastRefreshed: int)

  /** new EventFile(title, url): not yet refreshed, so no internal URL, no metadata, epoch timestamp. */
  function NewEventFile(title: EventPartIdentifier, externalUrl: String): (f: EventFile)
    ensures f.title == title && f.externalUrl == externalUrl
    ensures f.eventFileId.None? && f.internalUrl.None? && f.metadata.None?
    ensures f.lastRefreshed == 0
  {
    EventFile(None, title, externalUrl, None, None, 0)
  }

  /** EventFile.equals: decided by the identifiers; a file without one throws. */
  function Equals(a: EventFile, b: EventFile): (r: Result<bool>)
    ensures r.Fail? <==> a.eventFileId.None?
    ensures r.Fail? ==> r.error == NullPointer
    ensures r.Ok? ==> (r.value <==> b.eventFileId == a.eventFileId)
  {
    if a.eventFileId.None? then Fail(NullPointer) else Ok(b.eventFileId == a.eventFileId)
  }

  /** Files with the same identifier are equal whatever their part and address, and equality is symmetric. */
  lemma EqualsById(a: EventFile, b: EventFile)
    requires a.eventFileId.Some? && b.eventFileId.Some?
    ensures Equals(a, b) == Equals(b, a)
    ensures Equals(a, b) == Ok(true) <==> a.eventFileId == b.eventFileId
  {
  }

  /** EventFile.compareTo: the difference of the parts' orders. */
  function CompareTo(a: EventFile, b: EventFile): (r: int)
    ensures r < 0 <==> Order(a.title) < Order(b.title)
    ensures r == 0 <==> a.title == b.title
  {
    Order(a.title) - Order(b.title)
  }

  /** compareTo is antisymmetric and follows declaration order, DEFAULT first. */
  lemma CompareToOrder(a: EventFile, b: EventFile)
    ensures CompareTo(a, b) == -CompareTo(b, a)
    ensures forall i, j :: 0 <= i < j < |Values| ==> Order(Values[i]) < Order(Values[j])
  {
  }
}
