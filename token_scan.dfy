/**
 * The token walk every Galataman post parser runs over a post's HTML
 * (GManEventFileSourceParser in both trees and the three GalatamanPost
 * classes): from the first element whose own text matches the start
 * pattern, every following sibling that is a source header (for the GMan
 * parsers a "b" element whose text contains "Channel"; the three posts take
 * the test from pattern holders outside this model, so it is part of the
 * parser's rules) opens a source; the siblings up to the next
 * header are scanned for part labels and video links; the header's HTML and
 * the links are handed to the parser's source builder. The walk stops at
 * the first link whose URL does not parse and at the first source the
 * builder rejects; what each parser then does with the sources so far is
 * modelled in its own module.
 *
 * The document is modelled as the sequence of siblings the walk visits.
 */
module TokenScan {
  import opened Outcome
  import opened JavaString
  import opened Regex
  import opened EventFile

  /** What the walk reads of an element. */
  datatype Element = Element(tagName: String, ownText: String, text: String, html: String, href: String)

  const SourceTag: String := "b"
  const SourceMarker: String := "Channel"

  /** isSourceData of both GManEventFileSourceParsers: a "b" element whose text contains "Channel". */
  predicate IsSourceData(e: Element)
  {
    e.tagName == SourceTag && Contains(e.text, SourceMarker)
  }

  /** getElementsMatchingOwnText(start).first(), searching from position i. */
  function StartIndex(doc: seq<Element>, start: Matcher, i: nat): (r: Option<nat>)
    decreases |doc| - i
    ensures r.Some? ==> i <= r.value < |doc| && Found(start, doc[r.value].ownText)
    ensures r.Some? ==> forall k :: i <= k < r.value ==> !Found(start, doc[k].ownText)
    ensures r.None? ==> forall k :: i <= k < |doc| ==> !Found(start, doc[k].ownText)
  {
    if i >= |doc| then None
    else if Found(start, doc[i].ownText) then Some(i)
    else StartIndex(doc, start, i + 1)
  }

  /** Where the inner walk that starts at j stops: the next source header, or the end. */
  function SegmentEnd(doc: seq<Element>, j: nat, rules: LinkRules): (r: nat)
    requires j <= |doc|
    decreases |doc| - j
    ensures j <= r <= |doc|
    ensures r < |doc| ==> rules.isSourceData(doc[r])
    ensures forall k :: j <= k < r ==> !rules.isSourceData(doc[k])
  {
    if j == |doc| || rules.isSourceData(doc[j]) then j else SegmentEnd(doc, j + 1, rules)
  }

  /** A video link found by the inner walk, with the part label in force where it was found. */
  datatype Link = Link(part: EventPartIdentifier, href: String)

  /**
   * How a parser reads the elements of a source: which elements are source
   * headers, the part label an
   * element's HTML names, if the parser looks for one (it does so before
   * looking for a link), and which elements it takes for video links.
   */
  datatype LinkRules = LinkRules(isSourceData: Element -> bool, partLabel: String -> Option<EventPartIdentifier>,
                                 isVideoLink: Element -> bool)

  /** The element relabels the parts that follow it. */
  predicate Relabels(e: Element, rules: LinkRules)
  {
    rules.partLabel(e.html).Some?
  }

  /** isPartIdentifier, then fromString: the part label of the parsers that look for one. */
  function PartLabel(html: String): (r: Option<EventPartIdentifier>)
    ensures r.Some? <==> IsPartIdentifier(html)
    ensures r.Some? ==> r.value == PartOf(html)
  {
    if IsPartIdentifier(html) then Some(PartOf(html)) else None
  }

  /** The part label of the parsers that do not look for one. */
  function NoPartLabel(html: String): (r: Option<EventPartIdentifier>)
    ensures r.None?
  {
    None
  }

  /** The element is a video link the walk adds. */
  predicate IsLink(e: Element, rules: LinkRules)
  {
    !Relabels(e, rules) && rules.isVideoLink(e)
  }

  /** The part label after the walk has passed elems: the last relabelling, DEFAULT before any. */
  function Label(elems: seq<Element>, rules: LinkRules): (r: EventPartIdentifier)
    ensures (forall k :: 0 <= k < |elems| ==> !Relabels(elems[k], rules)) ==> r == DEFAULT
  {
    if elems == [] then DEFAULT
    else
      var e := elems[|elems| - 1];
      if Relabels(e, rules) then rules.partLabel(e.html).value else Label(elems[..|elems| - 1], rules)
  }

  /** The links the walk collects from elems, in order. */
  function Links(elems: seq<Element>, rules: LinkRules): (r: seq<Link>)
    ensures |r| <= |elems|
  {
    if elems == [] then []
    else
      var e := elems[|elems| - 1];
      var init := elems[..|elems| - 1];
      Links(init, rules) + (if IsLink(e, rules) then [Link(Label(init, rules), e.href)] else [])
  }

  /** The links of a prefix of the elements are a prefix of their links. */
  lemma {:induction false} LinksPrefix(elems: seq<Element>, j: nat, rules: LinkRules)
    requires j <= |elems|
    ensures Links(elems[..j], rules) <= Links(elems, rules)
    decreases |elems| - j
  {
    if j < |elems| {
      var init := elems[..|elems| - 1];
      assert init[..j] == elems[..j];
      LinksPrefix(init, j, rules);
    } else {
      assert elems[..j] == elems;
    }
  }

  /**
   * Every link is a video-link element of elems that is not a part label,
   * with that element's href, and in a source without part labels every
   * link carries DEFAULT.
   */
  lemma {:induction false} LinksAreVideoLinks(elems: seq<Element>, rules: LinkRules)
    ensures forall l :: l in Links(elems, rules) ==>
              exists k :: 0 <= k < |elems| && IsLink(elems[k], rules) && l.href == elems[k].href
    ensures (forall k :: 0 <= k < |elems| ==> !Relabels(elems[k], rules)) ==>
              forall l :: l in Links(elems, rules) ==> l.part == DEFAULT
  {
    if elems != [] {
      var init := elems[..|elems| - 1];
      LinksAreVideoLinks(init, rules);
      forall l | l in Links(elems, rules)
        ensures exists k :: 0 <= k < |elems| && IsLink(elems[k], rules) && l.href == elems[k].href
      {
        if l in Links(init, rules) {
          var k :| 0 <= k < |init| && IsLink(init[k], rules) && l.href == init[k].href;
          assert elems[k] == init[k];
        } else {
          assert IsLink(elems[|elems| - 1], rules) && l.href == elems[|elems| - 1].href;
        }
      }
      if forall k :: 0 <= k < |elems| ==> !Relabels(elems[k], rules) {
        assert forall k :: 0 <= k < |init| ==> !Relabels(init[k], rules) by {
          forall k | 0 <= k < |init| ensures !Relabels(init[k], rules) {
            assert init[k] == elems[k];
          }
        }
      }
    }
  }

  /** One more element extends the label and the links as the inner loop does. */
  lemma WalkStep(elems: seq<Element>, j: nat, rules: LinkRules)
    requires j < |elems|
    ensures Label(elems[..j + 1], rules)
            == if Relabels(elems[j], rules) then rules.partLabel(elems[j].html).value else Label(elems[..j], rules)
    ensures Links(elems[..j + 1], rules)
            == Links(elems[..j], rules)
               + (if IsLink(elems[j], rules) then [Link(Label(elems[..j], rules), elems[j].href)] else [])
  {
    assert elems[..j + 1][..j] == elems[..j];
  }

  /** new EventFile(partIdentifier, url) for each link, in order. */
  function LinkFiles(links: seq<Link>): (r: seq<EventFile>)
    ensures |r| == |links|
    ensures forall k :: 0 <= k < |r| ==> r[k] == NewEventFile(links[k].part, links[k].href)
  {
    if links == [] then []
    else LinkFiles(links[..|links| - 1]) + [NewEventFile(links[|links| - 1].part, links[|links| - 1].href)]
  }

  /** Every link's URL parses. */
  predicate AllValid(links: seq<Link>, validUrl: String -> bool)
  {
    forall k :: 0 <= k < |links| ==> validUrl(links[k].href)
  }

  /** The source builder's input: the header's HTML and the links found after it. */
  type Builder<S> = (String, seq<Link>) -> Result<S>

  /** The elements after the header at t, up to the next header. */
  function Segment(doc: seq<Element>, t: nat, rules: LinkRules): (r: seq<Element>)
    requires t < |doc|
    ensures forall k :: 0 <= k < |r| ==> !rules.isSourceData(r[k])
  {
    doc[t + 1..SegmentEnd(doc, t + 1, rules)]
  }

  /**
   * The source made from the header at t: MalformedURLException when one of
   * its links does not parse, otherwise what the builder makes of it.
   */
  function SourceAt<S>(doc: seq<Element>, t: nat, rules: LinkRules, validUrl: String -> bool, build: Builder<S>)
    : Result<S>
    requires t < |doc|
  {
    var links := Links(Segment(doc, t, rules), rules);
    if AllValid(links, validUrl) then build(doc[t].html, links) else Fail(MalformedUrl)
  }

  /** The sources made so far, and the exception that stopped the walk, if any. */
  datatype Walk<S> = Walk(sources: seq<S>, stop: Option<Exception>)

  /** What the header at each position makes: its source, or the exception that stops the walk. */
  function Maker<S>(doc: seq<Element>, rules: LinkRules, validUrl: String -> bool, build: Builder<S>): nat -> Result<S>
  {
    (t: nat) => if t < |doc| then SourceAt(doc, t, rules, validUrl, build) else Fail(MalformedUrl)
  }

  /**
   * The outer walk over the siblings from..to-1, given what each header
   * makes: each header adds its source, until one fails.
   */
  function Scan<S>(doc: seq<Element>, from: nat, upto: nat, rules: LinkRules, make: nat -> Result<S>): Walk<S>
    requires from <= upto <= |doc|
    decreases upto
  {
    if upto == from then Walk([], None)
    else
      var prev := Scan(doc, from, upto - 1, rules, make);
      if prev.stop.Some? || !rules.isSourceData(doc[upto - 1]) then prev
      else match make(upto - 1)
        case Ok(s) => Walk(prev.sources + [s], None)
        case Fail(e) => Walk(prev.sources, Some(e))
  }

  /** The whole walk: nothing without a start element, otherwise the walk from it to the end. */
  function WalkDocument<S>(doc: seq<Element>, start: Matcher, rules: LinkRules, validUrl: String -> bool,
                           build: Builder<S>): Walk<S>
  {
    match StartIndex(doc, start, 0)
    case None => Walk([], None)
    case Some(t) => Scan(doc, t, |doc|, rules, Maker(doc, rules, validUrl, build))
  }

  /** A stopped walk ignores the next sibling. */
  lemma StoppedStep<S>(doc: seq<Element>, from: nat, t: nat, rules: LinkRules,
                       make: nat -> Result<S>)
    requires from <= t < |doc|
    requires Scan(doc, from, t, rules, make).stop.Some?
    ensures Scan(doc, from, t + 1, rules, make) == Scan(doc, from, t, rules, make)
  {
  }

  /** A stopped walk stays stopped, with the same sources. */
  lemma {:induction false} ScanStopped<S>(doc: seq<Element>, from: nat, mid: nat, upto: nat, rules: LinkRules,
                                          make: nat -> Result<S>)
    requires from <= mid <= upto <= |doc|
    requires Scan(doc, from, mid, rules, make).stop.Some?
    ensures Scan(doc, from, upto, rules, make) == Scan(doc, from, mid, rules, make)
    decreases upto - mid
  {
    if upto > mid {
      ScanStopped(doc, from, mid, upto - 1, rules, make);
      StoppedStep(doc, from, upto - 1, rules, make);
    }
  }

  /** The positions of the source headers among from..to-1. */
  function Headers(doc: seq<Element>, from: nat, upto: nat, rules: LinkRules): (r: seq<nat>)
    requires from <= upto <= |doc|
    decreases upto
    ensures forall k :: 0 <= k < |r| ==> from <= r[k] < upto && rules.isSourceData(doc[r[k]])
  {
    if upto == from then []
    else Headers(doc, from, upto - 1, rules) + (if rules.isSourceData(doc[upto - 1]) then [upto - 1] else [])
  }

  /**
   * A walk that did not stop made exactly one source per header, the k-th
   * from the k-th header; a walk that stopped kept the sources of the
   * headers before the one that failed.
   */
  lemma {:induction false} ScanOneSourcePerHeader<S>(doc: seq<Element>, from: nat, upto: nat, rules: LinkRules,
                                                     make: nat -> Result<S>)
    requires from <= upto <= |doc|
    ensures var w := Scan(doc, from, upto, rules, make);
            var hs := Headers(doc, from, upto, rules);
            w.stop.None? ==> |w.sources| == |hs|
    ensures var w := Scan(doc, from, upto, rules, make);
            var hs := Headers(doc, from, upto, rules);
            |w.sources| <= |hs|
            && forall k :: 0 <= k < |w.sources| ==> make(hs[k]) == Ok(w.sources[k])
    decreases upto
  {
    if upto > from {
      ScanOneSourcePerHeader(doc, from, upto - 1, rules, make);
    }
  }

  /** A walk that stopped did so at the header after the sources it kept, with that header's exception. */
  lemma {:induction false} ScanStopCause<S>(doc: seq<Element>, from: nat, upto: nat, rules: LinkRules,
                                            make: nat -> Result<S>)
    requires from <= upto <= |doc|
    ensures var w := Scan(doc, from, upto, rules, make);
            var hs := Headers(doc, from, upto, rules);
            w.stop.Some? ==> |w.sources| < |hs| && make(hs[|w.sources|]) == Fail(w.stop.value)
    decreases upto
  {
    if upto > from {
      var prev := Scan(doc, from, upto - 1, rules, make);
      var hsPrev := Headers(doc, from, upto - 1, rules);
      if prev.stop.Some? {
        ScanStopCause(doc, from, upto - 1, rules, make);
        StoppedStep(doc, from, upto - 1, rules, make);
        HeadersGrow(doc, from, upto, rules);
      } else if rules.isSourceData(doc[upto - 1]) {
        ScanSourceCount(doc, from, upto - 1, rules, make);
        ScanStep(doc, from, upto - 1, rules, make);
        assert Headers(doc, from, upto, rules) == hsPrev + [upto - 1];
      }
    }
  }

  /** The headers up to one more sibling begin with the headers before it. */
  lemma HeadersGrow(doc: seq<Element>, from: nat, upto: nat, rules: LinkRules)
    requires from < upto <= |doc|
    ensures var hsPrev := Headers(doc, from, upto - 1, rules);
            var hs := Headers(doc, from, upto, rules);
            |hsPrev| <= |hs| && forall k :: 0 <= k < |hsPrev| ==> hs[k] == hsPrev[k]
  {
  }

  /** A walk makes at most one source per header, and exactly one when it did not stop. */
  lemma {:induction false} ScanSourceCount<S>(doc: seq<Element>, from: nat, upto: nat, rules: LinkRules,
                                              make: nat -> Result<S>)
    requires from <= upto <= |doc|
    ensures var w := Scan(doc, from, upto, rules, make);
            var hs := Headers(doc, from, upto, rules);
            |w.sources| <= |hs| && (w.stop.None? ==> |w.sources| == |hs|)
    decreases upto
  {
    if upto > from {
      ScanSourceCount(doc, from, upto - 1, rules, make);
    }
  }

  /**
   * The walk from the start element made the sources of the headers from
   * there on, in order: of all of them when it did not stop, and when it
   * stopped, of those before the header whose source failed with the
   * exception it stopped on.
   */
  lemma WalkHeaders<S>(doc: seq<Element>, start: Matcher, rules: LinkRules, validUrl: String -> bool,
                       build: Builder<S>)
    requires StartIndex(doc, start, 0).Some?
    ensures var w := WalkDocument(doc, start, rules, validUrl, build);
            var hs := Headers(doc, StartIndex(doc, start, 0).value, |doc|, rules);
            && |w.sources| <= |hs|
            && (w.stop.None? <==> |w.sources| == |hs|)
            && (forall k :: 0 <= k < |w.sources| ==> SourceAt(doc, hs[k], rules, validUrl, build) == Ok(w.sources[k]))
            && (w.stop.Some? ==> SourceAt(doc, hs[|w.sources|], rules, validUrl, build) == Fail(w.stop.value))
  {
    var t := StartIndex(doc, start, 0).value;
    ScanOneSourcePerHeader(doc, t, |doc|, rules, Maker(doc, rules, validUrl, build));
    ScanStopCause(doc, t, |doc|, rules, Maker(doc, rules, validUrl, build));
  }

  /**
   * The inner loop of parseMatchSources: the siblings after the header at t
   * up to the next header, each part label relabelling the links after it
   * and each video link added with the label in force; it stops at the
   * first link whose URL does not parse.
   */
  method GatherLinks(doc: seq<Element>, t: nat, rules: LinkRules, validUrl: String -> bool)
    returns (links: seq<Link>, parsed: bool)
    requires t < |doc|
    ensures parsed <==> AllValid(Links(Segment(doc, t, rules), rules), validUrl)
    ensures parsed ==> links == Links(Segment(doc, t, rules), rules)
  {
    var seg := Segment(doc, t, rules);
    links := [];
    var part := DEFAULT;
    var j := t + 1;
    ghost var i := 0;
    while j < |doc| && !rules.isSourceData(doc[j])
      invariant t + 1 <= j <= SegmentEnd(doc, t + 1, rules) && i == j - (t + 1)
      invariant links == Links(seg[..i], rules) && part == Label(seg[..i], rules)
      invariant AllValid(links, validUrl)
    {
      assert seg[i] == doc[j];
      WalkStep(seg, i, rules);
      var e := doc[j];
      var named := rules.partLabel(e.html);
      if named.Some? {
        part := named.value;
        assert part == Label(seg[..i + 1], rules) && links == Links(seg[..i + 1], rules);
      } else if rules.isVideoLink(e) {
        if !validUrl(e.href) {
          BadLinkStops(seg, i, rules, validUrl);
          return links, false;
        }
        links := links + [Link(part, e.href)];
        assert part == Label(seg[..i + 1], rules) && links == Links(seg[..i + 1], rules);
      } else {
        assert part == Label(seg[..i + 1], rules) && links == Links(seg[..i + 1], rules);
      }
      j := j + 1;
      i := i + 1;
    }
    assert seg[..i] == seg;
    return links, true;
  }

  /** A video link whose URL does not parse leaves a link of the source that does not parse. */
  lemma BadLinkStops(seg: seq<Element>, i: nat, rules: LinkRules, validUrl: String -> bool)
    requires i < |seg| && IsLink(seg[i], rules) && !validUrl(seg[i].href)
    ensures !AllValid(Links(seg, rules), validUrl)
  {
    WalkStep(seg, i, rules);
    LinksPrefix(seg, i + 1, rules);
    var n := |Links(seg[..i], rules)|;
    assert Links(seg[..i + 1], rules)[n].href == seg[i].href;
    assert Links(seg, rules)[n] == Links(seg[..i + 1], rules)[n];
  }

  /** The source of the header at t: its links gathered, then built, or MalformedURLException. */
  method MakeSource<S>(doc: seq<Element>, t: nat, rules: LinkRules, validUrl: String -> bool, build: Builder<S>)
    returns (made: Result<S>)
    requires t < |doc|
    ensures made == Maker(doc, rules, validUrl, build)(t)
  {
    var links, parsed := GatherLinks(doc, t, rules, validUrl);
    made := if parsed then build(doc[t].html, links) else Fail(MalformedUrl);
  }

  /** One more sibling: a header makes its source unless the walk has stopped. */
  lemma ScanStep<S>(doc: seq<Element>, from: nat, t: nat, rules: LinkRules,
                    make: nat -> Result<S>)
    requires from <= t < |doc|
    ensures var prev := Scan(doc, from, t, rules, make);
            Scan(doc, from, t + 1, rules, make)
            == if prev.stop.Some? || !rules.isSourceData(doc[t]) then prev
               else match make(t)
                 case Ok(s) => Walk(prev.sources + [s], None)
                 case Fail(e) => Walk(prev.sources, Some(e))
  {
  }

  /**
   * The outer loop of parseMatchSources: from the start element, every
   * header's links are gathered and the builder's source added; a link whose
   * URL does not parse or an exception of the builder stops the walk.
   */
  method WalkSources<S>(doc: seq<Element>, start: Matcher, rules: LinkRules, validUrl: String -> bool,
                        build: Builder<S>) returns (w: Walk<S>)
    ensures w == WalkDocument(doc, start, rules, validUrl, build)
  {
    var first := StartIndex(doc, start, 0);
    if first.None? {
      return Walk([], None);
    }
    w := ScanFrom(doc, first.value, rules, validUrl, build);
  }

  /** The outer loop from the start element on. */
  method ScanFrom<S>(doc: seq<Element>, from: nat, rules: LinkRules, validUrl: String -> bool, build: Builder<S>)
    returns (w: Walk<S>)
    requires from <= |doc|
    ensures w == Scan(doc, from, |doc|, rules, Maker(doc, rules, validUrl, build))
  {
    w := Walk([], None);
    var t := from;
    while t < |doc|
      invariant from <= t <= |doc|
      invariant w.stop.None? && Scan(doc, from, t, rules, Maker(doc, rules, validUrl, build)) == w
    {
      w := ScanHeader(doc, from, t, w, rules, validUrl, build);
      if w.stop.Some? {
        return w;
      }
      t := t + 1;
    }
  }

  /** A walk that stops at sibling t stays stopped to the end. */
  lemma ScanStoppedAt<S>(doc: seq<Element>, from: nat, t: nat, rules: LinkRules, make: nat -> Result<S>)
    requires from <= t < |doc|
    ensures Scan(doc, from, t + 1, rules, make).stop.Some? ==>
              Scan(doc, from, |doc|, rules, make) == Scan(doc, from, t + 1, rules, make)
  {
    if Scan(doc, from, t + 1, rules, make).stop.Some? {
      ScanStopped(doc, from, t + 1, |doc|, rules, make);
    }
  }

  /** One sibling of the outer loop: a header's source is made and added, or stops the walk. */
  method ScanHeader<S>(doc: seq<Element>, from: nat, t: nat, prev: Walk<S>, rules: LinkRules,
                       validUrl: String -> bool, build: Builder<S>) returns (w: Walk<S>)
    requires from <= t < |doc|
    requires prev.stop.None? && Scan(doc, from, t, rules, Maker(doc, rules, validUrl, build)) == prev
    ensures w == Scan(doc, from, t + 1, rules, Maker(doc, rules, validUrl, build))
    ensures w.stop.Some? ==> w == Scan(doc, from, |doc|, rules, Maker(doc, rules, validUrl, build))
  {
    ScanStep(doc, from, t, rules, Maker(doc, rules, validUrl, build));
    ScanStoppedAt(doc, from, t, rules, Maker(doc, rules, validUrl, build));
    if !rules.isSourceData(doc[t]) {
      return prev;
    }
    var made := MakeSource(doc, t, rules, validUrl, build);
    if made.Fail? {
      return Walk(prev.sources, Some(made.error));
    }
    return Walk(prev.sources + [made.value], None);
  }
}
