/**
 * The event service (src/main/java/self/me/matchday/api/service/EventService.java):
 * validation before an event is saved, the merge of file sources with the
 * event already stored under the same ID, and the sorted listing of all
 * events.
 *
 * The repository is a map from event ID to the stored event; saveAndFlush
 * stores the event under its ID. The event sorter is a comparator given as a
 * parameter (EventSorter.java is not part of this model), and List.sort, a
 * stable sort, is modelled by a stable insertion sort. An event's file
 * sources are a set, so adding another event's sources is a union.
 */
module EventService {
  import opened Outcome
  import opened JavaString
  import opened Domain
  import EFS = EventFileSource

  datatype CompetitionRecord = CompetitionRecord(name: Option<String>)

  /** What the service reads of an event. */
  datatype EventRecord = EventRecord(eventId: String, title: Option<String>, competition: Option<CompetitionRecord>,
                                     date: Option<DateTime>, fileSources: set<EFS.EventFileSource>)

  /** MIN_DATE: 1970-01-01T00:00. */
  const MinDate: DateTime := DateTime(0)

  /** A text that is neither null nor "". */
  predicate Filled(s: Option<String>)
  {
    s.Some? && s.value != []
  }

  /**
   * The validity rule: an event, a non-empty title, a competition with a
   * non-empty name, and a date strictly after MIN_DATE.
   */
  predicate ValidEvent(event: Option<EventRecord>)
  {
    && event.Some?
    && Filled(event.value.title)
    && event.value.competition.Some? && Filled(event.value.competition.value.name)
    && event.value.date.Some? && event.value.date.value.seconds > MinDate.seconds
  }

  /** isValidEvent: three flags, each set when its criterion holds, and their conjunction. */
  method IsValidEvent(event: Option<EventRecord>) returns (b: bool)
    ensures b <==> ValidEvent(event)
  {
    var titleValid, competitionValid, dateValid := false, false, false;
    if event.Some? {
      var title := event.value.title;
      if title.Some? && title.value != [] {
        titleValid := true;
      }
      var competition := event.value.competition;
      if competition.Some? {
        var name := competition.value.name;
        if name.Some? && name.value != [] {
          competitionValid := true;
        }
      }
      var date := event.value.date;
      if date.Some? && date.value.seconds > MinDate.seconds {
        dateValid := true;
      }
    }
    b := titleValid && competitionValid && dateValid;
  }

  /** An event with its file sources joined by those of the event stored under its ID. */
  function Merged(store: map<String, EventRecord>, event: EventRecord): (m: EventRecord)
    ensures m.eventId == event.eventId && m.title == event.title
    ensures m.competition == event.competition && m.date == event.date
    ensures event.fileSources <= m.fileSources
    ensures event.eventId in store ==> store[event.eventId].fileSources <= m.fileSources
    ensures forall s :: s in m.fileSources ==>
              s in event.fileSources || (event.eventId in store && s in store[event.eventId].fileSources)
  {
    if event.eventId in store then event.(fileSources := event.fileSources + store[event.eventId].fileSources)
    else event
  }

  /** The repository after saveEvent: unchanged for an invalid event, else the merged event under its ID. */
  function Saved(store: map<String, EventRecord>, event: EventRecord): (r: map<String, EventRecord>)
    ensures !ValidEvent(Some(event)) ==> r == store
    ensures ValidEvent(Some(event)) ==> event.eventId in r && r[event.eventId] == Merged(store, event)
    ensures forall id :: id != event.eventId ==> (id in r <==> id in store) && (id in store ==> r[id] == store[id])
  {
    if ValidEvent(Some(event)) then store[event.eventId := Merged(store, event)] else store
  }

  /** Saving never loses a file source already stored under the event's ID. */
  lemma SaveKeepsStoredSources(store: map<String, EventRecord>, event: EventRecord)
    requires event.eventId in store
    ensures store[event.eventId].fileSources <= Saved(store, event)[event.eventId].fileSources
  {
  }

  /** Saving the same event twice stores what saving it once does. */
  lemma SaveIdempotent(store: map<String, EventRecord>, event: EventRecord)
    ensures Saved(Saved(store, event), event) == Saved(store, event)
  {
    if ValidEvent(Some(event)) {
      var once := Saved(store, event);
      assert Merged(once, event) == Merged(store, event);
    }
  }

  /** The stored event of a valid save passes validation itself. */
  lemma SavedIsValid(store: map<String, EventRecord>, event: EventRecord)
    requires ValidEvent(Some(event))
    ensures ValidEvent(Some(Saved(store, event)[event.eventId]))
  {
  }

  /** The service over its repository. */
  class EventService {
    var store: map<String, EventRecord>

    constructor (store: map<String, EventRecord>)
      ensures this.store == store
    {
      this.store := store;
    }

    /**
     * saveEvent: an invalid event is not saved; a valid one gets the file
     * sources of the event stored under its ID added and is then stored.
     */
    method SaveEvent(event: EventRecord)
      modifies this
      ensures store == Saved(old(store), event)
    {
      var valid := IsValidEvent(Some(event));
      if valid {
        var e := event;
        if event.eventId in store {
          e := e.(fileSources := e.fileSources + store[event.eventId].fileSources);
        }
        store := store[event.eventId := e];
      }
    }
  }

  // ---------------------------------------------------------------------
  // fetchAllEvents
  // ---------------------------------------------------------------------

  /** What List.sort asks of a comparator, read as "a sorts no later than b". */
  ghost predicate TotalPreorder(le: (EventRecord, EventRecord) -> bool)
  {
    && (forall a, b :: le(a, b) || le(b, a))
    && (forall a, b, c :: le(a, b) && le(b, c) ==> le(a, c))
  }

  predicate Sorted(s: seq<EventRecord>, le: (EventRecord, EventRecord) -> bool)
  {
    forall i, j :: 0 <= i < j < |s| ==> le(s[i], s[j])
  }

  /** Puts x into s after the leading entries that sort no later than it. */
  function Insert(x: EventRecord, s: seq<EventRecord>, le: (EventRecord, EventRecord) -> bool): (r: seq<EventRecord>)
    ensures multiset(r) == multiset(s) + multiset{x}
  {
    if s == [] then [x]
    else if le(s[0], x) then
      assert s == [s[0]] + s[1..];
      [s[0]] + Insert(x, s[1..], le)
    else [x] + s
  }

  /** Inserting into a sorted list keeps it sorted. */
  lemma {:induction false} InsertSorted(x: EventRecord, s: seq<EventRecord>, le: (EventRecord, EventRecord) -> bool)
    requires TotalPreorder(le) && Sorted(s, le)
    ensures Sorted(Insert(x, s, le), le)
  {
    if s != [] && le(s[0], x) {
      InsertSorted(x, s[1..], le);
      var rest := Insert(x, s[1..], le);
      var r := [s[0]] + rest;
      forall j | 0 < j < |r| ensures le(s[0], r[j]) {
        assert r[j] in multiset(rest);
        assert r[j] in multiset(s[1..]) + multiset{x};
        if r[j] != x {
          assert r[j] in s[1..];
          var k :| 0 <= k < |s[1..]| && s[1..][k] == r[j];
          assert le(s[0], s[k + 1]);
        }
      }
    }
  }

  /** List.sort: the list sorted by insertion. */
  function Sort(s: seq<EventRecord>, le: (EventRecord, EventRecord) -> bool): (r: seq<EventRecord>)
    ensures multiset(r) == multiset(s)
  {
    if s == [] then []
    else
      assert s == s[..|s| - 1] + [s[|s| - 1]];
      Insert(s[|s| - 1], Sort(s[..|s| - 1], le), le)
  }

  /** The sort orders the list by the comparator. */
  lemma {:induction false} SortSorted(s: seq<EventRecord>, le: (EventRecord, EventRecord) -> bool)
    requires TotalPreorder(le)
    ensures Sorted(Sort(s, le), le)
  {
    if s != [] {
      SortSorted(s[..|s| - 1], le);
      InsertSorted(s[|s| - 1], Sort(s[..|s| - 1], le), le);
    }
  }

  /** fetchAllEvents: no list when the repository holds no event, else all of them sorted. */
  function FetchAllEvents(all: seq<EventRecord>, le: (EventRecord, EventRecord) -> bool): (r: Option<seq<EventRecord>>)
    ensures r.None? <==> |all| == 0
    ensures r.Some? ==> multiset(r.value) == multiset(all)
  {
    if |all| > 0 then Some(Sort(all, le)) else None
  }

  /** The listing is in the sorter's order. */
  lemma FetchAllEventsSorted(all: seq<EventRecord>, le: (EventRecord, EventRecord) -> bool)
    requires TotalPreorder(le) && |all| > 0
    ensures FetchAllEvents(all, le).Some? && Sorted(FetchAllEvents(all, le).value, le)
  {
    SortSorted(all, le);
  }
}
