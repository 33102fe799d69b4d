/**
 * The live timeline of each run: batches of events arrive with repeats and out of order and are
 * merged into the page held for the run.
 */
module RunTimeline {

  import opened Wrappers

  type RunId = nat

  datatype Event = Event(number: nat, payload: string)

  datatype Page = Page(entries: seq<Event>, nextCursor: Option<nat>, cursorExpired: bool)

  /** The first entry with a given sequence number. */
  function Find(entries: seq<Event>, number: nat): (r: Option<Event>)
    ensures r.Some? <==> exists i :: 0 <= i < |entries| && entries[i].number == number
    ensures r.Some? ==> r.value in entries && r.value.number == number
  {
    if entries == [] then None
    else if entries[0].number == number then Some(entries[0])
    else Find(entries[1..], number)
  }

  predicate Ascending(entries: seq<Event>) {
    forall i, j :: 0 <= i < j < |entries| ==> entries[i].number < entries[j].number
  }

  /** The filter: an entry stays when no earlier entry has its number. */
  function KeepFirst(all: seq<Event>): seq<Event> {
    if all == [] then []
    else
      var front, last := all[..|all| - 1], all[|all| - 1];
      if Find(front, last.number).Some? then KeepFirst(front) else KeepFirst(front) + [last]
  }

  function Insert(entries: seq<Event>, e: Event): seq<Event> {
    if entries == [] || e.number < entries[0].number then [e] + entries
    else [entries[0]] + Insert(entries[1..], e)
  }

  /** The sort by sequence number. */
  function Sort(entries: seq<Event>): seq<Event> {
    if entries == [] then [] else Insert(Sort(entries[..|entries| - 1]), entries[|entries| - 1])
  }

  function Merged(held: seq<Event>, events: seq<Event>): seq<Event> {
    Sort(KeepFirst(held + events))
  }

  /** One run's page after one batch. */
  function MergePage(previous: Option<Page>, events: seq<Event>): Option<Page> {
    if events == [] then previous
    else
      var held := if previous.Some? then previous.value.entries else [];
      var entries := Merged(held, events);
      if previous.Some? && |entries| == |held| then previous
      else
        var cursor :=
          if entries != [] then Some(entries[|entries| - 1].number)
          else if previous.Some? then previous.value.nextCursor else None;
        Some(Page(entries, cursor, previous.Some? && previous.value.cursorExpired))
  }

  // ------------------------------------------------------------ find and order

  lemma {:induction false} FindConcat(a: seq<Event>, b: seq<Event>, number: nat)
    ensures Find(a + b, number) == if Find(a, number).Some? then Find(a, number) else Find(b, number)
  {
    if a == [] {
      assert a + b == b;
    } else {
      assert (a + b)[0] == a[0] && (a + b)[1..] == a[1..] + b;
      FindConcat(a[1..], b, number);
    }
  }

  lemma {:induction false} KeepFirstFinds(all: seq<Event>, number: nat)
    ensures Find(KeepFirst(all), number) == Find(all, number)
  {
    if all != [] {
      var front, last := all[..|all| - 1], all[|all| - 1];
      assert all == front + [last];
      KeepFirstFinds(front, number);
      FindConcat(front, [last], number);
      FindConcat(KeepFirst(front), [last], number);
    }
  }

  predicate DistinctNumbers(entries: seq<Event>) {
    forall i, j :: 0 <= i < j < |entries| ==> entries[i].number != entries[j].number
  }

  lemma {:induction false} KeepFirstIsDistinct(all: seq<Event>)
    ensures DistinctNumbers(KeepFirst(all))
  {
    if all != [] {
      var front, last := all[..|all| - 1], all[|all| - 1];
      KeepFirstIsDistinct(front);
      KeepFirstFinds(front, last.number);
    }
  }

  lemma {:induction false} InsertFinds(entries: seq<Event>, e: Event, number: nat)
    requires Ascending(entries) && Find(entries, e.number).None?
    ensures Find(Insert(entries, e), number) == (if number == e.number then Some(e) else Find(entries, number))
  {
    if entries != [] && entries[0].number < e.number {
      assert Insert(entries, e)[1..] == Insert(entries[1..], e);
      InsertFinds(entries[1..], e, number);
    } else {
      assert Insert(entries, e)[1..] == entries;
    }
  }

  lemma {:induction false} InsertAscends(entries: seq<Event>, e: Event)
    requires Ascending(entries) && Find(entries, e.number).None?
    ensures Ascending(Insert(entries, e)) && |Insert(entries, e)| == |entries| + 1
    ensures forall i :: 0 <= i < |Insert(entries, e)| ==> Insert(entries, e)[i] == e || Insert(entries, e)[i] in entries
  {
    if entries != [] && entries[0].number < e.number {
      var rest := Insert(entries[1..], e);
      InsertAscends(entries[1..], e);
      assert Insert(entries, e) == [entries[0]] + rest;
      assert forall i :: 0 <= i < |rest| ==> entries[0].number < rest[i].number;
    } else {
      assert Insert(entries, e) == [e] + entries;
      assert entries != [] ==> e.number < entries[0].number;
    }
  }

  lemma {:induction false} SortAscends(entries: seq<Event>)
    requires DistinctNumbers(entries)
    ensures Ascending(Sort(entries)) && |Sort(entries)| == |entries|
    ensures forall n: nat :: Find(Sort(entries), n) == Find(entries, n)
  {
    hide Ascending, DistinctNumbers, Insert;
    if entries != [] {
      var front, last := entries[..|entries| - 1], entries[|entries| - 1];
      FrontIsDistinct(entries);
      SortAscends(front);
      assert entries == front + [last];
      InsertAscends(Sort(front), last);
      forall n: nat
        ensures Find(Sort(entries), n) == Find(entries, n)
      {
        FindConcat(front, [last], n);
        InsertFinds(Sort(front), last, n);
      }
    } else {
      assert Ascending([]) by { EmptyAscends(); }
    }
  }

  lemma EmptyAscends()
    ensures Ascending([])
  {
  }

  lemma FrontIsDistinct(entries: seq<Event>)
    requires DistinctNumbers(entries) && entries != []
    ensures DistinctNumbers(entries[..|entries| - 1])
    ensures Find(entries[..|entries| - 1], entries[|entries| - 1].number).None?
  {
  }

  /** A merge is strictly ascending and holds, for every number, the first entry held or delivered with it. */
  lemma MergedIsFirstHeld(held: seq<Event>, events: seq<Event>, number: nat)
    ensures Ascending(Merged(held, events))
    ensures Find(Merged(held, events), number) == Find(held + events, number)
  {
    KeepFirstIsDistinct(held + events);
    KeepFirstFinds(held + events, number);
    SortAscends(KeepFirst(held + events));
  }

  lemma NothingFound(a: seq<Event>)
    ensures a == [] <==> forall n: nat :: Find(a, n).None?
  {
    if a != [] { assert Find(a, a[0].number).Some?; }
  }

  /** Two strictly ascending timelines that hold the same entries are the same timeline. */
  lemma {:induction false} AscendingIsUnique(a: seq<Event>, b: seq<Event>)
    requires Ascending(a) && Ascending(b) && forall n: nat :: Find(a, n) == Find(b, n)
    ensures a == b
  {
    if a == [] || b == [] {
      NothingFound(a);
      NothingFound(b);
    } else {
      SameHead(a, b);
      forall n: nat
        ensures Find(a[1..], n) == Find(b[1..], n)
      {
        assert Find(a, n) == Find(b, n);
        if n == a[0].number { assert Find(a[1..], n).None? && Find(b[1..], n).None?; }
      }
      AscendingIsUnique(a[1..], b[1..]);
      assert a == [a[0]] + a[1..] && b == [b[0]] + b[1..];
    }
  }

  lemma SameHead(a: seq<Event>, b: seq<Event>)
    requires Ascending(a) && Ascending(b) && a != [] && b != [] && forall n: nat :: Find(a, n) == Find(b, n)
    ensures a[0] == b[0]
  {
    assert Find(a, a[0].number) == Find(b, a[0].number) && Find(a, b[0].number) == Find(b, b[0].number);
  }

  // ------------------------------------------------------------------ batches

  function Concat(batches: seq<seq<Event>>): seq<Event> {
    if batches == [] then [] else Concat(batches[..|batches| - 1]) + batches[|batches| - 1]
  }

  /** One run's page after a sequence of batches, starting from none. */
  function After(batches: seq<seq<Event>>): Option<Page> {
    if batches == [] then None
    else MergePage(After(batches[..|batches| - 1]), batches[|batches| - 1])
  }

  /** What the timeline of a run that received `all` must look like. */
  ghost predicate TimelineOf(page: Option<Page>, all: seq<Event>) {
    if page.None? then all == []
    else
      && all != [] && page.value.entries != []
      && Ascending(page.value.entries)
      && (forall n: nat :: Find(page.value.entries, n) == Find(all, n))
      && page.value.nextCursor == Some(page.value.entries[|page.value.entries| - 1].number)
  }

  /** A merge of live events decides nothing about whether older events are still available. */
  lemma MergeKeepsExpiry(previous: Option<Page>, events: seq<Event>)
    ensures var page := MergePage(previous, events);
            page.Some? ==> (page.value.cursorExpired <==> previous.Some? && previous.value.cursorExpired)
  {
    hide Merged;
  }

  /** A batch that leaves the count unchanged holds no new number, so skipping it is exact. */
  lemma SkippedBatchIsOld(held: seq<Event>, events: seq<Event>, number: nat)
    requires Ascending(held) && |Merged(held, events)| == |held|
    ensures Find(held + events, number) == Find(held, number)
  {
    FindConcat(held, events, number);
    if Find(held, number).None? && Find(events, number).Some? {
      KeepFirstIsDistinct(held + events);
      SortAscends(KeepFirst(held + events));
      KeepFirstGrows(held, events, number);
      assert false;
    }
  }

  /** The filter keeps what was held and adds at least one entry for a new number. */
  lemma {:induction false} KeepFirstGrows(held: seq<Event>, events: seq<Event>, number: nat)
    requires Ascending(held)
    ensures |KeepFirst(held + events)| >= |held|
    ensures Find(held, number).None? && Find(events, number).Some? ==> |KeepFirst(held + events)| > |held|
    decreases |events|
  {
    if events == [] {
      assert held + events == held;
      KeepFirstOfAscending(held);
    } else {
      var front, last := events[..|events| - 1], events[|events| - 1];
      assert (held + events)[..|held + events| - 1] == held + front;
      KeepFirstGrows(held, front, number);
      assert events == front + [last];
      FindConcat(front, [last], number);
      FindConcat(held, front, number);
    }
  }

  lemma {:induction false} KeepFirstOfAscending(held: seq<Event>)
    requires Ascending(held)
    ensures KeepFirst(held) == held
  {
    if held != [] {
      KeepFirstOfAscending(held[..|held| - 1]);
    }
  }

  lemma OneBatchIsExact(previous: Option<Page>, all: seq<Event>, events: seq<Event>)
    requires TimelineOf(previous, all)
    ensures TimelineOf(MergePage(previous, events), all + events)
  {
    hide Merged, Ascending, Find;
    var held := if previous.Some? then previous.value.entries else [];
    if events == [] {
      assert all + events == all;
    } else {
      forall n: nat
        ensures Find(Merged(held, events), n) == Find(all + events, n)
        ensures previous.Some? && |Merged(held, events)| == |held| ==> Find(held, n) == Find(all + events, n)
      {
        MergedIsFirstHeld(held, events, n);
        FindConcat(held, events, n);
        FindConcat(all, events, n);
        if previous.Some? && |Merged(held, events)| == |held| { SkippedBatchIsOld(held, events, n); }
      }
      MergedIsFirstHeld(held, events, 0);
      FindConcat(all, events, events[0].number);
    }
  }

  /**
   * Over any sequence of batches, with repeats and in any order: the timeline is strictly
   * ascending, holds exactly the delivered numbers, keeps for each the entry delivered first, and
   * its cursor is the largest number held.
   */
  lemma {:induction false} TimelineIsExact(batches: seq<seq<Event>>)
    ensures TimelineOf(After(batches), Concat(batches))
  {
    hide MergePage, TimelineOf;
    if batches == [] {
      assert TimelineOf(None, []) by { NoPageYet(); }
    } else {
      var before := batches[..|batches| - 1];
      TimelineIsExact(before);
      OneBatchIsExact(After(before), Concat(before), batches[|batches| - 1]);
    }
  }

  lemma NoPageYet()
    ensures TimelineOf(None, [])
  {
  }

  /** The effect: every run with live events gets its merged page, every other run keeps its own. */
  method MergeLiveEvents(current: map<RunId, Page>, live: map<RunId, seq<Event>>) returns (next: map<RunId, Page>)
    ensures next.Keys == current.Keys + (set r | r in live && live[r] != [])
    ensures forall r :: r in next ==>
              Some(next[r]) == MergePage(if r in current then Some(current[r]) else None, if r in live then live[r] else [])
  {
    hide Merged;
    next := current;
    var todo := live.Keys;
    while todo != {}
      invariant todo <= live.Keys
      invariant next.Keys == current.Keys + (set r | r in live && r !in todo && live[r] != [])
      invariant forall r :: r in next ==>
                  Some(next[r]) == if r in live && r !in todo
                                   then MergePage(if r in current then Some(current[r]) else None, live[r])
                                   else (if r in current then Some(current[r]) else None)
      decreases todo
    {
      var r :| r in todo;
      todo := todo - {r};
      if live[r] != [] {
        var merged := MergePage(if r in current then Some(current[r]) else None, live[r]);
        next := next[r := merged.value];
      }
    }
  }
}
