/**
 * The master playlist of the video model
 * (src/main/java/self/me/matchday/model/video/MasterM3U.java): a list of
 * variant entries, the first one added marked as the default, rendered by
 * grouping the entries by resolution.
 *
 * The class keeps the invariant `Valid`: the entries are distinct objects,
 * each has a resolution, the first entry is a default, and every default is
 * the first entry of its resolution. The last two are what make each group
 * print at most one DEFAULT=YES.
 */
module MasterM3U {
  import opened Outcome
  import opened JavaString
  import EFS = EventFileSource
  import MP = MasterPlaylist

  /** The NAME text of a languages string: String.join of that one string, "null" for null. */
  function LanguagesText(languages: Option<String>): (t: String)
    ensures languages.Some? ==> t == languages.value
  {
    if languages.Some? then languages.value else "null"
  }

  class MasterM3U {
    var entries: seq<MP.Entry>

    ghost predicate Valid()
      reads this, entries
    {
      && MP.Distinct(entries)
      && (forall i :: 0 <= i < |entries| ==> entries[i].resolution.Some?)
      && (|entries| > 0 ==> entries[0].isDefault)
      && MP.DefaultsLead(MP.Views(entries))
    }

    constructor ()
      ensures Valid() && entries == []
    {
      entries := [];
    }

    /**
     * addVariant: a new entry at the end of the list, the default exactly
     * when the list was empty; the entries already there keep their state.
     */
    method AddVariant(resolution: EFS.Resolution, languages: Option<String>, bitrate: int, link: String)
      requires Valid()
      modifies this
      ensures Valid()
      ensures |entries| == |old(entries)| + 1 && entries[..|old(entries)|] == old(entries)
      ensures fresh(entries[|old(entries)|])
      ensures MP.Views(entries) ==
        old(MP.Views(entries)) + [MP.EntryView(link, Some(resolution), LanguagesText(languages), bitrate, |old(entries)| == 0)]
    {
      var e := new MP.Entry(Some(resolution), LanguagesText(languages), bitrate, link);
      if |entries| == 0 {
        e.isDefault := true;
      }
      ghost var before := MP.Views(entries);
      entries := entries + [e];
      assert MP.Views(entries) == before + [e.View()];
    }

    /**
     * toString: the master text of the entries after rendering marks the
     * first entry of the first group with several entries as a default.
     */
    method ToString() returns (r: String)
      requires Valid()
      modifies entries
      ensures Valid()
      ensures MP.Views(entries) == MP.Marked(old(MP.Views(entries)))
      ensures r == MP.MasterText(MP.Views(entries))
    {
      ghost var v0 := MP.Views(entries);
      r := MP.Render(entries);
      MP.MarkedKeeps(v0, EFS.Resolutions);
      MP.MarkedKeepsDefaultsLead(v0);
      assert forall i :: 0 <= i < |entries| ==> entries[i].resolution == MP.Views(entries)[i].resolution;
    }
  }
}
