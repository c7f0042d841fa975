/**
 * The master playlist shared by both master playlist classes
 * (src/main/java/self/me/matchday/model/video/MasterM3U.java and
 * src/main/java/self/me/matchday/model/MasterM3U.java): variant entries
 * grouped by resolution in the declaration order of the resolutions, an
 * EXT-X-MEDIA line for each entry of a group with more than one entry, and one
 * EXT-X-STREAM-INF identifier per group built from its first entry. Rendering
 * also marks the first entry of the first such group as the default.
 *
 * An entry is an object whose default flag is set in place; `Views` reads the
 * entries' state as values, and the rendering `Render` is proved against the
 * functions `Marked` (the new state) and `MasterText` (the text).
 */
module MasterPlaylist {
  import opened Outcome
  import opened JavaString
  import opened HlsText
  import EFS = EventFileSource

  // Tags and attributes of section 4.3.4 of RFC 8216, as the entry classes spell them.
  const STREAM_INF: String := "#EXT-X-STREAM-INF:"
  const BANDWIDTH_TAG: String := "BANDWIDTH="
  const RESOLUTION_TAG: String := "RESOLUTION="
  const VIDEO_TAG: String := "VIDEO="
  const MEDIA_LINK: String := "#EXT-X-MEDIA:"
  const MEDIA_TYPE: String := "TYPE=VIDEO"
  const GROUP_ID_TAG: String := "GROUP-ID="
  const NAME_TAG: String := "NAME="
  const DEFAULT_TAG: String := "DEFAULT="
  const URI_TAG: String := "URI="
  const COMMA: String := ","
  const QUOTE: String := "\""

  /** The state of one entry, as a value. */
  datatype EntryView = EntryView(
    link: String,
    resolution: Option<EFS.Resolution>,
    languages: String,
    bitrate: int,
    isDefault: bool)

  /** VariantPlaylistEntry: only its default flag changes after construction. */
  class Entry {
    const playlistLink: String
    const resolution: Option<EFS.Resolution>
    /** The NAME text: the entry's languages as String.join prints them. */
    const languages: String
    const bitrate: int
    var isDefault: bool

    constructor (resolution: Option<EFS.Resolution>, languages: String, bitrate: int, playlistLink: String)
      ensures this.resolution == resolution && this.languages == languages
      ensures this.bitrate == bitrate && this.playlistLink == playlistLink
      ensures !isDefault
    {
      this.resolution := resolution;
      this.languages := languages;
      this.bitrate := bitrate;
      this.playlistLink := playlistLink;
      isDefault := false;
    }

    function View(): EntryView
      reads this
    {
      EntryView(playlistLink, resolution, languages, bitrate, isDefault)
    }
  }

  /** The entries' states, position by position. */
  function Views(es: seq<Entry>): (vs: seq<EntryView>)
    reads es
    ensures |vs| == |es|
    ensures forall i :: 0 <= i < |es| ==> vs[i] == es[i].View()
  {
    seq(|es|, i reads es requires 0 <= i < |es| => es[i].View())
  }

  /** No entry object occurs twice in the list. */
  predicate Distinct(es: seq<Entry>)
  {
    forall i, j :: 0 <= i < j < |es| ==> es[i] != es[j]
  }

  // ---------------------------------------------------------------------
  // Grouping by resolution
  // ---------------------------------------------------------------------

  /** The resolution of every entry. */
  function Keys(vs: seq<EntryView>): (ks: seq<Option<EFS.Resolution>>)
    ensures |ks| == |vs|
    ensures forall i :: 0 <= i < |vs| ==> ks[i] == vs[i].resolution
  {
    seq(|vs|, i requires 0 <= i < |vs| => vs[i].resolution)
  }

  /** The positions holding resolution r, in increasing order: the list groupingBy collects for r. */
  function Positions(keys: seq<Option<EFS.Resolution>>, r: EFS.Resolution): (ps: seq<nat>)
    ensures forall k :: 0 <= k < |ps| ==> ps[k] < |keys| && keys[ps[k]] == Some(r)
    ensures forall k, l :: 0 <= k < l < |ps| ==> ps[k] < ps[l]
  {
    if |keys| == 0 then []
    else
      var init := Positions(keys[..|keys| - 1], r);
      if keys[|keys| - 1] == Some(r) then init + [|keys| - 1] else init
  }

  /** The group of resolution r: its entries in list order. */
  function Group(vs: seq<EntryView>, r: EFS.Resolution): (g: seq<EntryView>)
    ensures |g| == |Positions(Keys(vs), r)|
  {
    var ps := Positions(Keys(vs), r);
    seq(|ps|, k requires 0 <= k < |ps| => vs[ps[k]])
  }

  /** The first resolution, in the order of rs, whose group has more than one entry. */
  function FirstMulti(vs: seq<EntryView>, rs: seq<EFS.Resolution>): (r: Option<EFS.Resolution>)
    ensures r.Some? ==> r.value in rs && |Positions(Keys(vs), r.value)| > 1
    ensures r.None? ==> forall k :: 0 <= k < |rs| ==> |Positions(Keys(vs), rs[k])| <= 1
  {
    if |rs| == 0 then None
    else
      var p := FirstMulti(vs, rs[..|rs| - 1]);
      if p.Some? then p
      else if |Positions(Keys(vs), rs[|rs| - 1])| > 1 then Some(rs[|rs| - 1])
      else None
  }

  /**
   * The state after rendering groups in the order rs: the first entry of the
   * first group with several entries becomes a default.
   */
  function MarkedIn(vs: seq<EntryView>, rs: seq<EFS.Resolution>): (m: seq<EntryView>)
    ensures |m| == |vs|
  {
    match FirstMulti(vs, rs)
    case None => vs
    case Some(r) =>
      var p := Positions(Keys(vs), r)[0];
      vs[p := vs[p].(isDefault := true)]
  }

  /** The state after toString, whose groups follow the declaration order of the resolutions. */
  function Marked(vs: seq<EntryView>): (m: seq<EntryView>)
    ensures |m| == |vs|
  {
    MarkedIn(vs, EFS.Resolutions)
  }

  // ---------------------------------------------------------------------
  // The text
  // ---------------------------------------------------------------------

  /** The resolution as string concatenation prints it. */
  function ResolutionText(r: Option<EFS.Resolution>): String
  {
    if r.Some? then EFS.Name(r.value) else "null"
  }

  /** The DEFAULT attribute's value. */
  function YesNo(b: bool): String
  {
    if b then "YES" else "NO"
  }

  /** VariantPlaylistEntry.toString: an EXT-X-MEDIA tag naming the group, the languages, the default flag and the link. */
  function MediaLine(v: EntryView): String
  {
    MEDIA_LINK + MEDIA_TYPE + COMMA + GROUP_ID_TAG + QUOTE + ResolutionText(v.resolution) + QUOTE + COMMA
    + NAME_TAG + QUOTE + v.languages + QUOTE + COMMA + DEFAULT_TAG + YesNo(v.isDefault) + COMMA
    + URI_TAG + QUOTE + v.link + QUOTE
  }

  /** The EXT-X-STREAM-INF tag: bandwidth, width x height and the group of the resolution. */
  function StreamInfLine(bitrate: int, r: EFS.Resolution): String
  {
    STREAM_INF + BANDWIDTH_TAG + IntToString(bitrate) + COMMA + RESOLUTION_TAG + IntToString(EFS.Width(r)) + "x"
    + IntToString(EFS.Height(r)) + COMMA + VIDEO_TAG + QUOTE + EFS.Name(r) + QUOTE
  }

  /** getPlaylistIdentifier: the STREAM-INF tag, then the link on its own line. */
  function Identifier(bitrate: int, link: String, r: EFS.Resolution): String
  {
    StreamInfLine(bitrate, r) + "\n" + link + "\n"
  }

  /** Each entry's MEDIA line followed by '\n', in order. */
  function MediaLines(g: seq<EntryView>): String
  {
    if |g| == 0 then [] else MediaLines(g[..|g| - 1]) + MediaLine(g[|g| - 1]) + "\n"
  }

  /** A group: MEDIA lines only when it has several entries, then the identifier of its first entry. */
  function GroupText(g: seq<EntryView>, r: EFS.Resolution): String
  {
    if |g| == 0 then []
    else (if |g| > 1 then MediaLines(g) else []) + Identifier(g[0].bitrate, g[0].link, r)
  }

  function GroupsText(vs: seq<EntryView>, rs: seq<EFS.Resolution>): String
  {
    if |rs| == 0 then []
    else GroupsText(vs, rs[..|rs| - 1]) + GroupText(Group(vs, rs[|rs| - 1]), rs[|rs| - 1])
  }

  /** toString: the header line, then the groups in the declaration order of the resolutions. */
  function MasterText(vs: seq<EntryView>): String
  {
    HEADER + "\n" + GroupsText(vs, EFS.Resolutions)
  }

  // ---------------------------------------------------------------------
  // Lemmas about grouping and marking
  // ---------------------------------------------------------------------

  /** Every position holding r is listed. */
  lemma {:induction false} PositionsComplete(keys: seq<Option<EFS.Resolution>>, r: EFS.Resolution, i: nat)
    requires i < |keys|
    ensures keys[i] == Some(r) ==> i in Positions(keys, r)
    decreases |keys|
  {
    if i < |keys| - 1 {
      PositionsComplete(keys[..|keys| - 1], r, i);
    }
  }

  /** The first position of a group is the first entry with that resolution. */
  lemma FirstPosition(keys: seq<Option<EFS.Resolution>>, r: EFS.Resolution, i: nat)
    requires |Positions(keys, r)| > 0 && i < Positions(keys, r)[0]
    ensures keys[i] != Some(r)
  {
    var ps := Positions(keys, r);
    PositionsComplete(keys, r, i);
    assert forall k :: 0 <= k < |ps| ==> ps[0] <= ps[k];
  }

  /** Marking changes the default flag of one entry and nothing else; a default stays a default. */
  lemma MarkedKeeps(vs: seq<EntryView>, rs: seq<EFS.Resolution>)
    ensures Keys(MarkedIn(vs, rs)) == Keys(vs)
    ensures forall i :: 0 <= i < |vs| && vs[i].isDefault ==> MarkedIn(vs, rs)[i].isDefault
    ensures forall i :: 0 <= i < |vs| ==>
      && MarkedIn(vs, rs)[i].link == vs[i].link && MarkedIn(vs, rs)[i].bitrate == vs[i].bitrate
      && MarkedIn(vs, rs)[i].languages == vs[i].languages && MarkedIn(vs, rs)[i].resolution == vs[i].resolution
  {
    assert forall i :: 0 <= i < |vs| ==> Keys(MarkedIn(vs, rs))[i] == Keys(vs)[i];
  }

  /** A prefix that already holds a group with several entries decides FirstMulti for every longer prefix. */
  lemma {:induction false} FirstMultiStable(vs: seq<EntryView>, rs: seq<EFS.Resolution>, i: nat, j: nat)
    requires i <= j <= |rs| && FirstMulti(vs, rs[..i]).Some?
    ensures FirstMulti(vs, rs[..j]) == FirstMulti(vs, rs[..i])
    decreases j
  {
    if j > i {
      FirstMultiStable(vs, rs, i, j - 1);
      assert rs[..j][..j - 1] == rs[..j - 1];
    }
  }

  /** FirstMulti on one more resolution. */
  lemma FirstMultiStep(vs: seq<EntryView>, rs: seq<EFS.Resolution>, i: nat)
    requires i < |rs|
    ensures FirstMulti(vs, rs[..i + 1]) ==
      if FirstMulti(vs, rs[..i]).Some? then FirstMulti(vs, rs[..i])
      else if |Positions(Keys(vs), rs[i])| > 1 then Some(rs[i]) else None
  {
    assert rs[..i + 1][..i] == rs[..i];
  }

  /**
   * A list in which every default entry is the first of its group: the state
   * the master playlist keeps.
   */
  predicate DefaultsLead(vs: seq<EntryView>)
  {
    forall i, j :: 0 <= j < i < |vs| && vs[i].isDefault ==> vs[j].resolution != vs[i].resolution
  }

  /** Marking keeps every default at the head of its group. */
  lemma MarkedKeepsDefaultsLead(vs: seq<EntryView>)
    requires DefaultsLead(vs)
    ensures DefaultsLead(Marked(vs))
  {
    var m := Marked(vs);
    MarkedKeeps(vs, EFS.Resolutions);
    match FirstMulti(vs, EFS.Resolutions)
    case None =>
    case Some(r) =>
      var p := Positions(Keys(vs), r)[0];
      forall i, j | 0 <= j < i < |m| && m[i].isDefault
        ensures m[j].resolution != m[i].resolution
      {
        if i == p {
          FirstPosition(Keys(vs), r, j);
        }
      }
  }

  /**
   * In a list whose defaults lead their groups, a group's entries after the
   * first are not defaults: each group renders at most one DEFAULT=YES.
   */
  lemma OneDefaultPerGroup(vs: seq<EntryView>, r: EFS.Resolution, k: nat)
    requires DefaultsLead(vs) && 0 < k < |Group(vs, r)|
    ensures !Group(vs, r)[k].isDefault
  {
    var ps := Positions(Keys(vs), r);
    assert ps[0] < ps[k];
    assert vs[ps[0]].resolution == vs[ps[k]].resolution;
  }

  /** After rendering, the first entry of the first group with several entries is a default. */
  lemma MarkedMakesDefault(vs: seq<EntryView>)
    requires FirstMulti(vs, EFS.Resolutions).Some?
    ensures var g := Group(Marked(vs), FirstMulti(vs, EFS.Resolutions).value); |g| > 0 && g[0].isDefault
  {
    MarkedKeeps(vs, EFS.Resolutions);
  }

  /** Marking is idempotent: rendering twice leaves the state of rendering once. */
  lemma MarkedIdempotent(vs: seq<EntryView>)
    ensures Marked(Marked(vs)) == Marked(vs)
  {
    var m := Marked(vs);
    MarkedKeeps(vs, EFS.Resolutions);
    FirstMultiSameKeys(vs, m, EFS.Resolutions);
  }

  /** FirstMulti looks only at the resolutions. */
  lemma {:induction false} FirstMultiSameKeys(a: seq<EntryView>, b: seq<EntryView>, rs: seq<EFS.Resolution>)
    requires Keys(a) == Keys(b)
    ensures FirstMulti(a, rs) == FirstMulti(b, rs)
    decreases |rs|
  {
    if |rs| > 0 {
      FirstMultiSameKeys(a, b, rs[..|rs| - 1]);
    }
  }

  /** No resolution is listed twice. */
  predicate NoRepeats(rs: seq<EFS.Resolution>)
  {
    forall i, j :: 0 <= i < j < |rs| ==> rs[i] != rs[j]
  }

  /** Each resolution occurs once in the declaration order. */
  lemma ResolutionsNoRepeats()
    ensures NoRepeats(EFS.Resolutions)
  {
    EFS.OrdinalIsPosition();
    forall i, j | 0 <= i < j < |EFS.Resolutions|
      ensures EFS.Resolutions[i] != EFS.Resolutions[j]
    {
      assert EFS.Ordinal(EFS.Resolutions[i]) == i;
    }
  }

  /** No group has more positions than the list has entries. */
  lemma {:induction false} PositionsAtMost(keys: seq<Option<EFS.Resolution>>, rs: seq<EFS.Resolution>)
    ensures forall k :: 0 <= k < |rs| ==> |Positions(keys, rs[k])| <= |keys|
    decreases |keys|
  {
    if |keys| > 0 {
      PositionsAtMost(keys[..|keys| - 1], rs);
    }
  }

  /** In a one-entry list, the group of r is that entry when it has resolution r, and empty otherwise. */
  lemma OneEntryGroup(v: EntryView, r: EFS.Resolution)
    ensures Group([v], r) == if v.resolution == Some(r) then [v] else []
  {
    var keys := Keys([v]);
    assert keys[..0] == [];
    assert Positions(keys[..0], r) == [];
    var ps := Positions(keys, r);
    assert ps == if v.resolution == Some(r) then [0] else [];
  }

  /** The groups of a one-entry list: the entry's identifier if its resolution is among rs, else nothing. */
  lemma {:induction false} SingleEntryGroups(v: EntryView, rs: seq<EFS.Resolution>)
    requires v.resolution.Some? && NoRepeats(rs)
    ensures GroupsText([v], rs) ==
      if v.resolution.value in rs then Identifier(v.bitrate, v.link, v.resolution.value) else []
    decreases |rs|
  {
    if |rs| > 0 {
      var init, last := rs[..|rs| - 1], rs[|rs| - 1];
      SingleEntryGroups(v, init);
      OneEntryGroup(v, last);
      assert v.resolution.value in rs <==> v.resolution.value in init || v.resolution.value == last;
      if v.resolution == Some(last) {
        assert v.resolution.value !in init;
      }
    }
  }

  /**
   * A master playlist with one entry: rendering leaves it as it is, and the
   * text is the header followed by that entry's identifier alone.
   */
  lemma SingleEntryText(v: EntryView)
    requires v.resolution.Some?
    ensures Marked([v]) == [v]
    ensures MasterText([v]) == HEADER + "\n" + Identifier(v.bitrate, v.link, v.resolution.value)
  {
    PositionsAtMost(Keys([v]), EFS.Resolutions);
    ResolutionsNoRepeats();
    assert v.resolution.value in EFS.Resolutions by {
      EFS.OrdinalIsPosition();
    }
    SingleEntryGroups(v, EFS.Resolutions);
  }

  // ---------------------------------------------------------------------
  // The rendering loop
  // ---------------------------------------------------------------------

  lemma Append3(a: String, b: String, c: String, d: String)
    ensures a + b + c + d == a + (b + c + d)
  {
  }

  /** The step of the group loop: the text of the groups of one more resolution. */
  lemma GroupsTextStep(vs: seq<EntryView>, rs: seq<EFS.Resolution>, i: nat)
    requires i < |rs|
    ensures GroupsText(vs, rs[..i + 1]) == GroupsText(vs, rs[..i]) + GroupText(Group(vs, rs[i]), rs[i])
  {
    assert rs[..i + 1][..i] == rs[..i];
  }

  lemma MediaLinesStep(g: seq<EntryView>, j: nat)
    requires j < |g|
    ensures MediaLines(g[..j + 1]) == MediaLines(g[..j]) + MediaLine(g[j]) + "\n"
  {
    assert g[..j + 1][..j] == g[..j];
  }

  /** setDefault(true) on the entry at position p; the other entries keep their state. */
  method SetDefault(es: seq<Entry>, p: nat)
    requires Distinct(es) && p < |es|
    modifies es[p]
    ensures Views(es) == old(Views(es))[p := old(Views(es))[p].(isDefault := true)]
  {
    es[p].isDefault := true;
    assert forall i :: 0 <= i < |es| && i != p ==> es[i].View() == old(es[i].View());
  }

  lemma WholePrefix<T>(rs: seq<T>)
    ensures rs[..|rs|] == rs
  {
  }

  /** The group of resolution res in the marked state is the marked state at the positions of res. */
  lemma MarkedGroupAt(v0: seq<EntryView>, rs: seq<EFS.Resolution>, res: EFS.Resolution, k: nat)
    requires k < |Positions(Keys(v0), res)|
    ensures var g := Group(MarkedIn(v0, rs), res); var p := Positions(Keys(v0), res)[k];
      |g| == |Positions(Keys(v0), res)| && g[k] == MarkedIn(v0, rs)[p]
      && g[k].bitrate == v0[p].bitrate && g[k].link == v0[p].link
  {
    MarkedKeeps(v0, rs);
  }

  /**
   * The inner forEach of toString on a group with several entries: each
   * entry's MEDIA line, the first of them made a default when no earlier
   * group had several entries.
   */
  method AppendMediaLines(es: seq<Entry>, ps: seq<nat>, ghost g: seq<EntryView>, ghost v0: seq<EntryView>,
                          ghost m: seq<EntryView>, first: bool, r0: String)
    returns (r: String, stillFirst: bool)
    requires Distinct(es) && |ps| > 1 && |g| == |ps|
    requires forall k :: 0 <= k < |ps| ==> ps[k] < |es| && ps[k] < |m| && g[k] == m[ps[k]]
    requires Views(es) == if first then v0 else m
    requires first ==> m == v0[ps[0] := v0[ps[0]].(isDefault := true)]
    modifies es
    ensures !stillFirst && Views(es) == m
    ensures r == r0 + MediaLines(g)
  {
    r := r0;
    stillFirst := first;
    for j := 0 to |ps|
      invariant j > 0 ==> !stillFirst
      invariant stillFirst ==> first
      invariant Views(es) == if stillFirst then v0 else m
      invariant r == r0 + MediaLines(g[..j])
    {
      var e := es[ps[j]];
      if stillFirst {
        assert j == 0;
        SetDefault(es, ps[j]);
        stillFirst := false;
      }
      MediaLinesStep(g, j);
      Append3(r0, MediaLines(g[..j]), MediaLine(g[j]), "\n");
      r := r + MediaLine(e.View()) + "\n";
    }
    WholePrefix(g);
  }

  /**
   * One step of the outer forEach: the group of resolution rs[ri], if it has
   * entries. The flag `first` says that no earlier group had several entries.
   */
  method AppendGroup(es: seq<Entry>, keys: seq<Option<EFS.Resolution>>, ghost v0: seq<EntryView>,
                     rs: seq<EFS.Resolution>, ri: nat, first: bool, r0: String)
    returns (r: String, stillFirst: bool)
    requires Distinct(es) && |v0| == |es| && keys == Keys(v0) && ri < |rs|
    requires forall i :: 0 <= i < |es| ==> v0[i].bitrate == es[i].bitrate && v0[i].link == es[i].playlistLink
    requires first <==> FirstMulti(v0, rs[..ri]).None?
    requires Views(es) == if first then v0 else MarkedIn(v0, rs)
    modifies es
    ensures stillFirst <==> FirstMulti(v0, rs[..ri + 1]).None?
    ensures Views(es) == if stillFirst then v0 else MarkedIn(v0, rs)
    ensures r == r0 + GroupText(Group(MarkedIn(v0, rs), rs[ri]), rs[ri])
  {
    ghost var m := MarkedIn(v0, rs);
    var res := rs[ri];
    var ps := Positions(keys, res);
    FirstMultiStep(v0, rs, ri);
    ghost var g := Group(m, res);
    r := r0;
    stillFirst := first;
    MarkedGroup(v0, rs, res);
    if |ps| > 0 {
      MarkedGroupAt(v0, rs, res, 0);
      var lead := es[ps[0]];
      var id := Identifier(lead.bitrate, lead.playlistLink, res);
      GroupTextOf(g, res, lead.bitrate, lead.playlistLink);
      if |ps| > 1 {
        if first {
          MarkedAtFirstMulti(v0, rs, ri);
        }
        r, stillFirst := AppendMediaLines(es, ps, g, v0, m, first, r);
        ConcatAssoc(r0, MediaLines(g), id);
        r := r + id;
      } else {
        assert GroupText(g, res) == id;
        r := r + id;
      }
    }
  }

  /** The group of resolution res in the marked state is the marked state at the positions of res. */
  lemma MarkedGroup(v0: seq<EntryView>, rs: seq<EFS.Resolution>, res: EFS.Resolution)
    ensures var ps := Positions(Keys(v0), res); var m := MarkedIn(v0, rs); var g := Group(m, res);
      && |g| == |ps| && |m| == |v0|
      && (forall k :: 0 <= k < |ps| ==> ps[k] < |m| && g[k] == m[ps[k]])
  {
    MarkedKeeps(v0, rs);
  }

  /**
   * When no group before rs[ri] had several entries and the group of rs[ri]
   * has, marking sets the flag of that group's first entry.
   */
  lemma MarkedAtFirstMulti(v0: seq<EntryView>, rs: seq<EFS.Resolution>, ri: nat)
    requires ri < |rs| && |Positions(Keys(v0), rs[ri])| > 1
    requires FirstMulti(v0, rs[..ri]).None?
    ensures var p := Positions(Keys(v0), rs[ri])[0];
      MarkedIn(v0, rs) == v0[p := v0[p].(isDefault := true)]
  {
    FirstMultiStep(v0, rs, ri);
    FirstMultiStable(v0, rs, ri + 1, |rs|);
    WholePrefix(rs);
  }

  /** The text of a group with entries, whose first entry has the given bitrate and link. */
  lemma GroupTextOf(g: seq<EntryView>, res: EFS.Resolution, bitrate: int, link: String)
    requires |g| > 0 && g[0].bitrate == bitrate && g[0].link == link
    ensures GroupText(g, res) == (if |g| > 1 then MediaLines(g) else []) + Identifier(bitrate, link, res)
  {
  }

  /**
   * The outer forEach of toString over the groups in the order rs; the state
   * ends marked and the text is the groups' text.
   */
  method AppendGroups(es: seq<Entry>, rs: seq<EFS.Resolution>, r0: String) returns (r: String)
    requires Distinct(es)
    modifies es
    ensures Views(es) == MarkedIn(old(Views(es)), rs)
    ensures r == r0 + GroupsText(Views(es), rs)
  {
    ghost var v0 := Views(es);
    ghost var m := MarkedIn(v0, rs);
    var keys := seq(|es|, i requires 0 <= i < |es| => es[i].resolution);
    assert keys == Keys(v0);
    assert forall i :: 0 <= i < |es| ==> v0[i].bitrate == es[i].bitrate && v0[i].link == es[i].playlistLink;
    r := r0;
    var first := true;
    for ri := 0 to |rs|
      invariant first <==> FirstMulti(v0, rs[..ri]).None?
      invariant Views(es) == if first then v0 else m
      invariant r == r0 + GroupsText(m, rs[..ri])
    {
      ghost var before := r;
      r, first := AppendGroup(es, keys, v0, rs, ri, first, r);
      GroupsTextStep(m, rs, ri);
      ConcatAssoc(r0, GroupsText(m, rs[..ri]), GroupText(Group(m, rs[ri]), rs[ri]));
    }
    WholePrefix(rs);
  }

  /**
   * toString: the header line, then for each resolution in declaration order
   * that has entries, the MEDIA lines of a group with several entries,
   * marking the first one printed as a default, then the group's identifier.
   */
  method Render(es: seq<Entry>) returns (r: String)
    requires Distinct(es)
    modifies es
    ensures Views(es) == Marked(old(Views(es)))
    ensures r == MasterText(Views(es))
  {
    r := AppendGroups(es, EFS.Resolutions, HEADER + "\n");
  }
}
