/**
 * The stored master playlist of the older model
 * (src/main/java/self/me/matchday/model/MasterM3U.java). Its entries are
 * built from file sources: the NAME text joins the source's languages with
 * '/', and a source without a bitrate cannot be unboxed into the entry's
 * `long`. An entry may lack a resolution, and then grouping by resolution
 * throws before anything is rendered or marked.
 */
module LegacyMasterM3U {
  import opened Outcome
  import opened JavaString
  import EFS = EventFileSource
  import MP = MasterPlaylist

  /** The NAME text of a source's languages. */
  function LanguagesText(languages: seq<String>): (t: String)
    ensures |languages| == 1 ==> t == languages[0]
  {
    Join(languages, "/")
  }

  class LegacyMasterM3U {
    const eventId: String
    var entries: seq<MP.Entry>

    ghost predicate Valid()
      reads this, entries
    {
      && MP.Distinct(entries)
      && (|entries| > 0 ==> entries[0].isDefault)
      && MP.DefaultsLead(MP.Views(entries))
    }

    /** new MasterM3U(eventId): no entries yet. */
    constructor (eventId: String)
      ensures Valid() && this.eventId == eventId && entries == []
    {
      this.eventId := eventId;
      entries := [];
    }

    /**
     * addVariant: NullPointerException, and nothing added, when the source
     * has no bitrate; otherwise a new entry at the end, the default exactly
     * when the list was empty.
     */
    method AddVariant(src: EFS.EventFileSource, link: String) returns (r: Result<()>)
      requires Valid()
      modifies this
      ensures Valid()
      ensures r.Fail? <==> src.bitrate.None?
      ensures r.Fail? ==> r.error == NullPointer && entries == old(entries)
      ensures r.Ok? ==>
        && |entries| == |old(entries)| + 1 && entries[..|old(entries)|] == old(entries)
        && fresh(entries[|old(entries)|])
        && MP.Views(entries) == old(MP.Views(entries)) +
             [MP.EntryView(link, src.resolution, LanguagesText(src.languages), src.bitrate.value, |old(entries)| == 0)]
    {
      if src.bitrate.None? {
        return Fail(NullPointer);
      }
      var e := new MP.Entry(src.resolution, LanguagesText(src.languages), src.bitrate.value, link);
      if |entries| == 0 {
        e.isDefault := true;
      }
      ghost var before := MP.Views(entries);
      entries := entries + [e];
      assert MP.Views(entries) == before + [e.View()];
      r := Ok(());
    }

    /**
     * toString: NullPointerException, with no entry changed, when an entry
     * has no resolution; otherwise the master text after marking.
     */
    method ToString() returns (r: Result<String>)
      requires Valid()
      modifies entries
      ensures Valid()
      ensures r.Fail? <==> exists i :: 0 <= i < |entries| && entries[i].resolution.None?
      ensures r.Fail? ==> r.error == NullPointer && MP.Views(entries) == old(MP.Views(entries))
      ensures r.Ok? ==> && MP.Views(entries) == MP.Marked(old(MP.Views(entries)))
                        && r.value == MP.MasterText(MP.Views(entries))
    {
      ghost var v0 := MP.Views(entries);
      var i := 0;
      while i < |entries|
        invariant i <= |entries|
        invariant forall k :: 0 <= k < i ==> entries[k].resolution.Some?
      {
        if entries[i].resolution.None? {
          return Fail(NullPointer);
        }
        i := i + 1;
      }
      var text := MP.Render(entries);
      MP.MarkedKeeps(v0, EFS.Resolutions);
      MP.MarkedKeepsDefaultsLead(v0);
      assert forall k :: 0 <= k < |entries| ==> entries[k].resolution == MP.Views(entries)[k].resolution;
      r := Ok(text);
    }
  }
}
