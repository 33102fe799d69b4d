/**
 * Pages of the durable journal loaded into a run's timeline on request, from the start or from the
 * timeline's cursor, between the live batches; and what the timeline then misses.
 */
module RunPages {

  import opened RunTimeline
  import opened Wrappers

  // ------------------------------------------------------------- loaded pages

  /** `loadEvents`: a page asked for from the start replaces what is held, another is put after it, unsorted. */
  function Loaded(previous: Option<Page>, after: nat, page: Page): Page {
    var held := if after == 0 || previous.None? then [] else previous.value.entries;
    page.(entries := KeepFirst(held + page.entries))
  }

  /** The entries whose number is not held. */
  function New(held: seq<Event>, entries: seq<Event>): (r: seq<Event>)
    ensures forall x :: x in r <==> x in entries && Find(held, x.number).None?
  {
    if entries == [] then []
    else
      var front, last := entries[..|entries| - 1], entries[|entries| - 1];
      assert entries == front + [last];
      New(held, front) + if Find(held, last.number).Some? then [] else [last]
  }

  lemma {:induction false} NewAscends(held: seq<Event>, entries: seq<Event>)
    requires Ascending(entries)
    ensures Ascending(New(held, entries))
  {
    if entries != [] {
      NewAscends(held, entries[..|entries| - 1]);
      var front := New(held, entries[..|entries| - 1]);
      assert forall i :: 0 <= i < |front| ==> front[i] in entries[..|entries| - 1];
    }
  }

  lemma LastIsFresh(entries: seq<Event>)
    requires Ascending(entries) && entries != []
    ensures Ascending(entries[..|entries| - 1]) && Find(entries[..|entries| - 1], entries[|entries| - 1].number).None?
  {
  }

  lemma {:induction false} LoadAppends(held: seq<Event>, entries: seq<Event>)
    requires Ascending(held) && Ascending(entries)
    ensures KeepFirst(held + entries) == held + New(held, entries)
    decreases |entries|
  {
    hide Find, Ascending;
    if entries == [] {
      assert held + entries == held && held + [] == held;
      KeepFirstOfAscending(held);
    } else {
      var front, last := entries[..|entries| - 1], entries[|entries| - 1];
      assert (held + entries)[..|held + entries| - 1] == held + front;
      LastIsFresh(entries);
      LoadAppends(held, front);
      FindConcat(held, front, last.number);
      assert held + (New(held, front) + [last]) == held + New(held, front) + [last];
      assert New(held, front) + [] == New(held, front);
    }
  }

  lemma AscendingConcat(a: seq<Event>, b: seq<Event>)
    requires Ascending(a) && Ascending(b)
    ensures Ascending(a + b) <==> forall x, y :: x in a && y in b ==> x.number < y.number
  {
    if Ascending(a + b) {
      forall x, y | x in a && y in b
        ensures x.number < y.number
      {
        var i :| 0 <= i < |a| && a[i] == x;
        var j :| 0 <= j < |b| && b[j] == y;
        assert (a + b)[i] == x && (a + b)[|a| + j] == y;
      }
    }
  }

  /**
   * A page loaded after an ascending timeline leaves it ascending exactly when each of its entries
   * is already held or lies above everything held; nothing sorts it.
   */
  lemma LoadAscendsExactly(held: seq<Event>, entries: seq<Event>)
    requires Ascending(held) && Ascending(entries)
    ensures Ascending(KeepFirst(held + entries)) <==>
              forall e :: e in entries ==> Find(held, e.number).Some? || forall h :: h in held ==> h.number < e.number
  {
    hide Find, KeepFirst, Ascending;
    LoadAppends(held, entries);
    NewAscends(held, entries);
    AscendingConcat(held, New(held, entries));
    assert forall e :: e in New(held, entries) <==> e in entries && Find(held, e.number).None?;
  }

  // --------------------------------------------------------------------- gaps

  /**
   * A page of a run's journal above a cursor: in order, of that journal, and complete up to the
   * cursor it returns. It returns none only when it has no entries, and may return one past them.
   */
  ghost predicate HonestPage(journal: seq<Event>, after: nat, page: Page) {
    && Ascending(page.entries)
    && (forall e :: e in page.entries ==> e in journal && after < e.number)
    && (page.nextCursor.None? ==> page.entries == [])
    && (page.nextCursor.Some? ==>
          && after < page.nextCursor.value
          && (forall e :: e in page.entries ==> e.number <= page.nextCursor.value)
          && (forall e :: e in journal && after < e.number <= page.nextCursor.value ==> e in page.entries))
  }

  /** Where held entries came from: a live batch, or a loaded page and the stretch it is complete for. */
  datatype Source = Batch(events: seq<Event>) | Stretch(after: nat, cursor: nat)

  /** A run's timeline and its outstanding load requests; `since` is the history since it was last replaced or reset. */
  datatype View = View(page: Option<Page>, asked: seq<nat>, since: seq<Source>)

  /** A reset is a change of scope, which also disowns the requests under way. */
  datatype Input = Live(events: seq<Event>) | AskFirst | AskMore | Answered(i: nat, answer: Page) | Reset

  ghost predicate Possible(journal: seq<Event>, v: View, input: Input) {
    match input
    case Live(events) => forall e :: e in events ==> e in journal
    case AskFirst => true
    case AskMore => v.page.Some? && v.page.value.nextCursor.Some?
    case Answered(i, answer) => i < |v.asked| && HonestPage(journal, v.asked[i], answer)
    case Reset => true
  }

  function Brought(since: seq<Source>, after: nat, page: Page): seq<Source> {
    (if after == 0 then [] else since) +
    (if page.nextCursor.Some? then [Stretch(after, page.nextCursor.value)] else [])
  }

  function Next(v: View, input: Input): View
    requires input.AskMore? ==> v.page.Some? && v.page.value.nextCursor.Some?
    requires input.Answered? ==> input.i < |v.asked|
  {
    match input
    case Live(events) => v.(page := MergePage(v.page, events), since := v.since + [Batch(events)])
    case AskFirst => v.(asked := v.asked + [0])
    case AskMore => v.(asked := v.asked + [v.page.value.nextCursor.value])
    case Answered(i, answer) =>
      View(Some(Loaded(v.page, v.asked[i], answer)), v.asked[..i] + v.asked[i + 1..], Brought(v.since, v.asked[i], answer))
    case Reset => View(None, [], [])
  }

  /** A change of scope shows nothing of the old one, and no answer to an earlier request is taken any more. */
  lemma ResetDisowns(journal: seq<Event>, v: View, i: nat, answer: Page)
    ensures Next(v, Reset).page.None?
    ensures !Possible(journal, Next(v, Reset), Answered(i, answer))
  {
  }

  /** A number is passed over: it is not held, and no request under way or to come asks from below it. */
  ghost predicate Passed(v: View, number: nat) {
    && v.page.Some? && Find(v.page.value.entries, number).None?
    && (exists e :: e in v.page.value.entries && number < e.number)
    && (v.page.value.nextCursor.Some? ==> number <= v.page.value.nextCursor.value)
    && (forall k :: 0 <= k < |v.asked| ==> number <= v.asked[k] && v.asked[k] > 0)
  }

  lemma {:induction false} LastIsLargest(entries: seq<Event>, e: Event)
    requires Ascending(entries) && e in entries
    ensures e.number <= entries[|entries| - 1].number
  {
  }

  lemma LivePassesOver(v: View, events: seq<Event>, number: nat)
    requires Passed(v, number) && Find(events, number).None?
    ensures Passed(Next(v, Live(events)), number)
  {
    hide Merged, Find, Ascending;
    var held := v.page.value.entries;
    if events != [] && |Merged(held, events)| != |held| {
      var e :| e in held && number < e.number;
      MergedIsFirstHeld(held, events, number);
      FindConcat(held, events, number);
      MergedIsFirstHeld(held, events, e.number);
      FindConcat(held, events, e.number);
      HeldIsFound(held, e);
      var kept := Find(Merged(held, events), e.number).value;
      LastIsLargest(Merged(held, events), kept);
    }
  }

  lemma {:induction false} HeldIsFound(entries: seq<Event>, e: Event)
    requires e in entries
    ensures Find(entries, e.number).Some?
  {
  }

  /** A page asked for from a cursor brings nothing at or below it. */
  lemma PageIsAbove(journal: seq<Event>, after: nat, page: Page, number: nat)
    requires HonestPage(journal, after, page) && number <= after
    ensures Find(page.entries, number).None?
    ensures page.nextCursor.Some? ==> number < page.nextCursor.value
  {
    hide Ascending;
    assert forall i :: 0 <= i < |page.entries| ==> page.entries[i] in page.entries && after < page.entries[i].number;
  }

  lemma KeepsFinding(held: seq<Event>, entries: seq<Event>, e: Event, number: nat)
    requires e in held && Find(held, number).None? && Find(entries, number).None?
    ensures Find(KeepFirst(held + entries), number).None?
    ensures exists x :: x in KeepFirst(held + entries) && x.number == e.number
  {
    hide KeepFirst;
    KeepFirstFinds(held + entries, number);
    FindConcat(held, entries, number);
    KeepFirstFinds(held + entries, e.number);
    FindConcat(held, entries, e.number);
    HeldIsFound(held, e);
    assert Find(KeepFirst(held + entries), e.number).value in KeepFirst(held + entries);
  }

  lemma LoadPassesOver(journal: seq<Event>, v: View, i: nat, answer: Page, number: nat)
    requires Passed(v, number) && i < |v.asked| && HonestPage(journal, v.asked[i], answer)
    ensures Passed(Next(v, Answered(i, answer)), number)
  {
    hide KeepFirst, HonestPage, Find;
    var held := v.page.value.entries;
    var e :| e in held && number < e.number;
    PageIsAbove(journal, v.asked[i], answer, number);
    KeepsFinding(held, answer.entries, e, number);
  }

  /**
   * A gap is never filled by loading more: once the cursor has passed a number that is not held, it
   * stays missing through every further batch that does not bring it and every further page, until
   * the timeline is loaded from the start again or reset.
   */
  lemma {:induction false} GapStays(journal: seq<Event>, views: seq<View>, inputs: seq<Input>, number: nat, n: nat)
    requires |views| == |inputs| + 1 && n < |views| && Passed(views[0], number) && number > 0
    requires forall k :: 0 <= k < |inputs| ==>
               && Possible(journal, views[k], inputs[k]) && views[k + 1] == Next(views[k], inputs[k])
               && !inputs[k].AskFirst? && !inputs[k].Reset? && (inputs[k].Live? ==> Find(inputs[k].events, number).None?)
    ensures Passed(views[n], number)
  {
    hide MergePage, Loaded, Find;
    if n > 0 {
      GapStays(journal, views, inputs, number, n - 1);
      var v := views[n - 1];
      assert Possible(journal, v, inputs[n - 1]) && views[n - 1 + 1] == Next(v, inputs[n - 1]);
      match inputs[n - 1]
      case Live(events) => LivePassesOver(v, events, number);
      case Answered(i, answer) => LoadPassesOver(journal, v, i, answer, number);
      case AskMore =>
    }
  }

  lemma FindOne(e: Event, number: nat)
    ensures Find([e], number) == if e.number == number then Some(e) else None
  {
  }

  /** Such a gap is reached when a live batch arrives past entries of the journal that were not loaded. */
  lemma LiveBatchLeavesGap(a: Event, b: Event, c: Event)
    requires 0 < a.number < b.number < c.number
    ensures var loaded := Page([a], Some(a.number), false);
            && HonestPage([a], 0, loaded)
            && Passed(Next(View(Some(Loaded(None, 0, loaded)), [], []), Live([c])), b.number)
  {
    hide Merged, KeepFirst, Find;
    var loaded := Page([a], Some(a.number), false);
    assert Loaded(None, 0, loaded) == loaded by {
      assert [] + [a] == [a];
      KeepFirstOfAscending([a]);
    }
    var merged := Merged([a], [c]);
    MergedIsFirstHeld([a], [c], b.number);
    MergedIsFirstHeld([a], [c], c.number);
    FindConcat([a], [c], b.number);
    FindConcat([a], [c], c.number);
    FindOne(a, b.number);
    FindOne(c, b.number);
    FindOne(a, c.number);
    FindOne(c, c.number);
    if |merged| == 1 { SkippedBatchIsOld([a], [c], c.number); }
    LastIsLargest(merged, Find(merged, c.number).value);
  }

  /** The entries of the journal up to a number, exactly. */
  ghost predicate HoldsUpTo(journal: seq<Event>, entries: seq<Event>, number: nat) {
    && Ascending(entries)
    && (forall e :: e in entries <==> e in journal && e.number <= number)
  }

  /** One load from the start, or from the cursor of a timeline without gaps, leaves one without gaps. */
  lemma LoadKeepsJournal(journal: seq<Event>, previous: Option<Page>, after: nat, page: Page)
    requires forall e :: e in journal ==> e.number > 0
    requires HonestPage(journal, after, page) && page.nextCursor.Some?
    requires after > 0 ==> previous.Some? && HoldsUpTo(journal, previous.value.entries, after)
    ensures HoldsUpTo(journal, Loaded(previous, after, page).entries, page.nextCursor.value)
  {
    hide KeepFirst, Find;
    var held := if after == 0 || previous.None? then [] else previous.value.entries;
    assert HoldsUpTo(journal, held, after);
    AllNew(journal, held, after, page);
    LoadAppends(held, page.entries);
    LoadAscendsExactly(held, page.entries);
    UpToCursor(journal, held, after, page);
  }

  /** The cursor a sequence of loads has reached, each asked from where the one before it ended. */
  function Cursor(pages: seq<Page>): Option<nat> {
    if pages == [] then Some(0) else pages[|pages| - 1].nextCursor
  }

  function LoadAll(pages: seq<Page>): Option<Page>
    requires forall k :: 0 <= k < |pages| ==> Cursor(pages[..k]).Some?
  {
    if pages == [] then None
    else
      var front := pages[..|pages| - 1];
      assert forall k :: 0 <= k < |front| ==> front[..k] == pages[..k];
      Some(Loaded(LoadAll(front), Cursor(front).value, pages[|pages| - 1]))
  }

  /**
   * Without live batches there is no gap: loading from the start and then again and again from the
   * cursor holds exactly the journal up to the cursor, in order, however the pages were cut.
   */
  lemma {:induction false} LoadsSpellJournal(journal: seq<Event>, pages: seq<Page>)
    requires forall e :: e in journal ==> e.number > 0
    requires forall k :: 0 <= k < |pages| ==> Cursor(pages[..k]).Some? && HonestPage(journal, Cursor(pages[..k]).value, pages[k])
    requires pages != [] && pages[|pages| - 1].nextCursor.Some?
    ensures LoadAll(pages).Some? && HoldsUpTo(journal, LoadAll(pages).value.entries, pages[|pages| - 1].nextCursor.value)
  {
    hide Loaded, HoldsUpTo, HonestPage;
    var last := |pages| - 1;
    var front := pages[..last];
    assert forall k :: 0 <= k < |front| ==> front[..k] == pages[..k];
    assert HonestPage(journal, Cursor(front).value, pages[last]);
    if front == [] {
      LoadKeepsJournal(journal, None, 0, pages[last]);
    } else {
      LoadsSpellJournal(journal, front);
      LoadKeepsJournal(journal, LoadAll(front), Cursor(front).value, pages[last]);
    }
  }

  /** A page without entries still moves the cursor, exactly over a stretch the journal has nothing in. */
  lemma EmptyPageMovesCursor(journal: seq<Event>, previous: Page, after: nat, cursor: nat)
    requires 0 < after < cursor && Ascending(previous.entries)
    ensures HonestPage(journal, after, Page([], Some(cursor), false)) <==>
              forall e :: e in journal ==> !(after < e.number <= cursor)
    ensures Loaded(Some(previous), after, Page([], Some(cursor), false)) == Page(previous.entries, Some(cursor), false)
  {
    assert previous.entries + [] == previous.entries;
    KeepFirstOfAscending(previous.entries);
  }

  /** What is loaded from the cursor lies above everything held. */
  lemma AllNew(journal: seq<Event>, held: seq<Event>, after: nat, page: Page)
    requires HonestPage(journal, after, page) && HoldsUpTo(journal, held, after)
    ensures forall e :: e in page.entries ==> Find(held, e.number).None?
    ensures forall e, h :: e in page.entries && h in held ==> h.number < e.number
  {
    hide Ascending;
    forall e | e in page.entries
      ensures Find(held, e.number).None?
    {
      assert forall i :: 0 <= i < |held| ==> held[i] in held && held[i].number <= after < e.number;
    }
  }

  lemma UpToCursor(journal: seq<Event>, held: seq<Event>, after: nat, page: Page)
    requires HonestPage(journal, after, page) && HoldsUpTo(journal, held, after) && page.nextCursor.Some?
    requires forall e :: e in page.entries ==> Find(held, e.number).None?
    ensures forall e :: e in held + New(held, page.entries) <==> e in journal && e.number <= page.nextCursor.value
  {
    hide Find;
  }

  // ------------------------------------------------------------ exactly no gap

  ghost predicate Supplies(journal: seq<Event>, source: Source, number: nat) {
    match source
    case Batch(events) => Find(events, number).Some?
    case Stretch(after, cursor) => after < number <= cursor && Find(journal, number).Some?
  }

  ghost predicate Supplied(journal: seq<Event>, since: seq<Source>, number: nat) {
    exists k :: 0 <= k < |since| && Supplies(journal, since[k], number)
  }

  function Held(v: View): seq<Event> {
    if v.page.Some? then v.page.value.entries else []
  }

  /** The timeline holds exactly the numbers its sources supplied, each once. */
  ghost predicate Exact(journal: seq<Event>, v: View) {
    && DistinctNumbers(Held(v))
    && forall n: nat :: Find(Held(v), n).Some? <==> Supplied(journal, v.since, n)
  }

  lemma SuppliedConcat(journal: seq<Event>, a: seq<Source>, b: seq<Source>, number: nat)
    ensures Supplied(journal, a + b, number) <==> Supplied(journal, a, number) || Supplied(journal, b, number)
  {
    hide Supplies;
    if k :| 0 <= k < |a| && Supplies(journal, a[k], number) { assert Supplies(journal, (a + b)[k], number); }
    if k :| 0 <= k < |b| && Supplies(journal, b[k], number) { assert Supplies(journal, (a + b)[|a| + k], number); }
    if k :| 0 <= k < |a + b| && Supplies(journal, (a + b)[k], number) {
      assert if k < |a| then Supplies(journal, a[k], number) else Supplies(journal, b[k - |a|], number);
    }
  }

  lemma OneSource(journal: seq<Event>, source: Source, number: nat)
    ensures Supplied(journal, [source], number) <==> Supplies(journal, source, number)
  {
    assert Supplies(journal, source, number) ==> Supplies(journal, [source][0], number);
  }

  /** What a page brings is what the journal has in its stretch. */
  lemma PageSupplies(journal: seq<Event>, after: nat, page: Page, number: nat)
    requires HonestPage(journal, after, page)
    ensures Find(page.entries, number).Some? <==>
              page.nextCursor.Some? && Supplies(journal, Stretch(after, page.nextCursor.value), number)
  {
    hide Ascending;
    if Find(page.entries, number).Some? { HeldIsFound(journal, Find(page.entries, number).value); }
    if page.nextCursor.Some? && after < number <= page.nextCursor.value && Find(journal, number).Some? {
      HeldIsFound(page.entries, Find(journal, number).value);
    }
  }

  lemma LiveStaysExact(journal: seq<Event>, v: View, events: seq<Event>)
    requires Exact(journal, v)
    ensures Exact(journal, Next(v, Live(events)))
  {
    hide Merged, Find, Supplied, Supplies, DistinctNumbers;
    var v', held := Next(v, Live(events)), Held(v);
    var merged := Merged(held, events);
    assert DistinctNumbers(Held(v')) by { if events != [] { MergedIsDistinct(held, events); } }
    forall n: nat
      ensures Find(Held(v'), n).Some? <==> Supplied(journal, v'.since, n)
    {
      SuppliedConcat(journal, v.since, [Batch(events)], n);
      OneSource(journal, Batch(events), n);
      LiveFinds(v.page, events, n);
      BatchSupplies(journal, events, n);
    }
  }

  lemma BatchSupplies(journal: seq<Event>, events: seq<Event>, number: nat)
    ensures Supplies(journal, Batch(events), number) <==> Find(events, number).Some?
  {
  }

  lemma MergedIsDistinct(held: seq<Event>, events: seq<Event>)
    ensures DistinctNumbers(Merged(held, events))
  {
    hide Merged;
    MergedIsFirstHeld(held, events, 0);
  }

  /** Whether or not the batch changes the count, the page then holds what was held or delivered. */
  lemma LiveFinds(page: Option<Page>, events: seq<Event>, number: nat)
    requires page.Some? ==> DistinctNumbers(page.value.entries)
    ensures var held := if page.Some? then page.value.entries else [];
            var after := MergePage(page, events);
            Find(if after.Some? then after.value.entries else [], number).Some? <==>
              Find(held, number).Some? || Find(events, number).Some?
  {
    hide Merged, Find;
    var held := if page.Some? then page.value.entries else [];
    FindConcat(held, events, number);
    if events == [] {
      NothingFound(events);
    } else {
      MergedIsFirstHeld(held, events, number);
      if |Merged(held, events)| == |held| { UnchangedCount(held, events, number); }
    }
  }

  /** An unchanged count means no new number, also when what is held is out of order. */
  lemma UnchangedCount(held: seq<Event>, events: seq<Event>, number: nat)
    requires DistinctNumbers(held) && |Merged(held, events)| == |held|
    ensures Find(events, number).Some? ==> Find(held, number).Some?
  {
    hide Find;
    KeepFirstIsDistinct(held + events);
    SortAscends(KeepFirst(held + events));
    KeepFirstOfDistinctGrows(held, events, number);
  }

  lemma {:induction false} KeepFirstOfDistinctGrows(held: seq<Event>, events: seq<Event>, number: nat)
    requires DistinctNumbers(held)
    ensures |KeepFirst(held + events)| >= |held|
    ensures Find(held, number).None? && Find(events, number).Some? ==> |KeepFirst(held + events)| > |held|
    decreases |events|
  {
    hide Find, DistinctNumbers;
    if events == [] {
      assert held + events == held;
      NothingFound(events);
      KeepFirstOfDistinct(held);
    } else {
      var front, last := events[..|events| - 1], events[|events| - 1];
      assert (held + events)[..|held + events| - 1] == held + front;
      KeepFirstOfDistinctGrows(held, front, number);
      assert events == front + [last];
      FindConcat(front, [last], number);
      FindConcat(held, front, number);
      FindOne(last, number);
    }
  }

  lemma {:induction false} KeepFirstOfDistinct(held: seq<Event>)
    requires DistinctNumbers(held)
    ensures KeepFirst(held) == held
  {
    if held != [] {
      KeepFirstOfDistinct(held[..|held| - 1]);
    }
  }

  lemma AnswerStaysExact(journal: seq<Event>, v: View, i: nat, answer: Page)
    requires Exact(journal, v) && i < |v.asked| && HonestPage(journal, v.asked[i], answer)
    ensures Exact(journal, Next(v, Answered(i, answer)))
  {
    hide KeepFirst, Find, Supplied, Supplies, DistinctNumbers, HonestPage;
    var v', after := Next(v, Answered(i, answer)), v.asked[i];
    var held, kept := if after == 0 then [] else Held(v), if after == 0 then [] else v.since;
    KeepFirstIsDistinct(held + answer.entries);
    forall n: nat
      ensures Find(Held(v'), n).Some? <==> Supplied(journal, v'.since, n)
    {
      KeepFirstFinds(held + answer.entries, n);
      FindConcat(held, answer.entries, n);
      PageSupplies(journal, after, answer, n);
      NothingFound([]);
      NoSource(journal, n);
      if answer.nextCursor.Some? {
        SuppliedConcat(journal, kept, [Stretch(after, answer.nextCursor.value)], n);
        OneSource(journal, Stretch(after, answer.nextCursor.value), n);
      } else {
        assert kept + [] == kept;
      }
    }
  }

  lemma NoSource(journal: seq<Event>, number: nat)
    ensures !Supplied(journal, [], number)
  {
  }

  /** A run of the timeline from nothing, in any mixture of live batches, loads and resets. */
  ghost predicate IsHistory(journal: seq<Event>, views: seq<View>, inputs: seq<Input>) {
    && |views| == |inputs| + 1 && views[0] == View(None, [], [])
    && forall k :: 0 <= k < |inputs| ==> Possible(journal, views[k], inputs[k]) && views[k + 1] == Next(views[k], inputs[k])
  }

  lemma {:induction false} TimelineStaysExact(journal: seq<Event>, views: seq<View>, inputs: seq<Input>, n: nat)
    requires IsHistory(journal, views, inputs) && n < |views|
    ensures Exact(journal, views[n])
  {
    hide MergePage, Loaded, Exact;
    if n == 0 {
      assert Exact(journal, View(None, [], [])) by { StartIsExact(journal); }
    } else {
      TimelineStaysExact(journal, views, inputs, n - 1);
      var v, input := views[n - 1], inputs[n - 1];
      assert Possible(journal, v, input) && views[n - 1 + 1] == Next(v, input);
      match input
      case Live(events) => LiveStaysExact(journal, v, events);
      case Answered(i, answer) => AnswerStaysExact(journal, v, i, answer);
      case Reset => StartIsExact(journal);
      case _ => AskStaysExact(journal, v, views[n]);
    }
  }

  lemma StartIsExact(journal: seq<Event>)
    ensures Exact(journal, View(None, [], []))
  {
  }

  lemma AskStaysExact(journal: seq<Event>, v: View, v': View)
    requires Exact(journal, v) && v'.page == v.page && v'.since == v.since
    ensures Exact(journal, v')
  {
    hide Find, Supplied;
  }

  /**
   * Over every mixture of live batches, loads and resets the timeline misses nothing of the journal
   * up to a number exactly when every entry up to it was in a live batch, or lay in the stretch of
   * a loaded page, since the timeline was last loaded from the start or reset.
   */
  lemma NoGapExactly(journal: seq<Event>, views: seq<View>, inputs: seq<Input>, n: nat, number: nat)
    requires IsHistory(journal, views, inputs) && n < |views|
    ensures (forall e :: e in journal && e.number <= number ==> Find(Held(views[n]), e.number).Some?) <==>
            (forall e :: e in journal && e.number <= number ==> Supplied(journal, views[n].since, e.number))
    ensures DistinctNumbers(Held(views[n]))
  {
    hide Find, Supplied;
    TimelineStaysExact(journal, views, inputs, n);
  }

  // ------------------------------------------------------------ the bus's pages

  /** An entry of the journal of all sessions; `mine` is whether it belongs to the run. */
  datatype BusEntry = BusEntry(event: Event, mine: bool)

  predicate BusAscending(bus: seq<BusEntry>) {
    forall i, j :: 0 <= i < j < |bus| ==> bus[i].event.number < bus[j].event.number
  }

  /** The entries above a cursor. */
  function BusAbove(bus: seq<BusEntry>, after: nat): seq<BusEntry> {
    if bus == [] then []
    else BusAbove(bus[..|bus| - 1], after) + (if after < bus[|bus| - 1].event.number then [bus[|bus| - 1]] else [])
  }

  /** The run's own events. */
  function Mine(bus: seq<BusEntry>): seq<Event> {
    if bus == [] then []
    else Mine(bus[..|bus| - 1]) + (if bus[|bus| - 1].mine then [bus[|bus| - 1].event] else [])
  }

  /** `get_session_run_events`: a page of the whole bus, with its cursor, and only then the run's part of it. */
  function BusPage(bus: seq<BusEntry>, after: nat, limit: nat): Page {
    var above := BusAbove(bus, after);
    var cut := if |above| <= limit then |above| else limit;
    Page(Mine(above[..cut]), if cut == 0 then None else Some(above[cut - 1].event.number), false)
  }

  lemma {:induction false} AboveExactly(bus: seq<BusEntry>, after: nat, b: BusEntry)
    ensures b in BusAbove(bus, after) <==> b in bus && after < b.event.number
  {
    if bus != [] {
      assert bus == bus[..|bus| - 1] + [bus[|bus| - 1]];
      AboveExactly(bus[..|bus| - 1], after, b);
    }
  }

  lemma {:induction false} MineExactly(bus: seq<BusEntry>, e: Event)
    ensures e in Mine(bus) <==> BusEntry(e, true) in bus
  {
    if bus != [] {
      assert bus == bus[..|bus| - 1] + [bus[|bus| - 1]];
      MineExactly(bus[..|bus| - 1], e);
    }
  }

  lemma {:induction false} AboveAscends(bus: seq<BusEntry>, after: nat)
    requires BusAscending(bus)
    ensures BusAscending(BusAbove(bus, after))
  {
    if bus != [] {
      var front, last := bus[..|bus| - 1], bus[|bus| - 1];
      AboveAscends(front, after);
      var r := BusAbove(front, after);
      forall i | 0 <= i < |r|
        ensures r[i].event.number < last.event.number
      {
        AboveExactly(front, after, r[i]);
      }
    }
  }

  lemma {:induction false} MineAscends(bus: seq<BusEntry>)
    requires BusAscending(bus)
    ensures Ascending(Mine(bus))
  {
    if bus != [] {
      var front, last := bus[..|bus| - 1], bus[|bus| - 1];
      MineAscends(front);
      var r := Mine(front);
      forall i | 0 <= i < |r|
        ensures r[i].number < last.event.number
      {
        MineExactly(front, r[i]);
      }
    }
  }

  lemma InBusPrefix(bus: seq<BusEntry>, n: nat, b: BusEntry, last: BusEntry)
    requires BusAscending(bus) && n <= |bus| && b in bus && last in bus[..n] && b.event.number <= last.event.number
    ensures b in bus[..n]
  {
    var i :| 0 <= i < |bus| && bus[i] == b;
    var k :| 0 <= k < n && bus[..n][k] == last;
    assert i <= k;
    assert bus[..n][i] == b;
  }

  /** What the run has up to the end of the cut is in the cut. */
  lemma CutIsComplete(bus: seq<BusEntry>, now: nat, after: nat, cut: nat, e: Event)
    requires BusAscending(bus) && now <= |bus| && 0 < cut <= |BusAbove(bus[..now], after)|
    requires e in Mine(bus) && after < e.number <= BusAbove(bus[..now], after)[cut - 1].event.number
    ensures e in Mine(BusAbove(bus[..now], after)[..cut])
  {
    hide BusAbove, Mine;
    var above, b := BusAbove(bus[..now], after), BusEntry(e, true);
    var last := above[cut - 1];
    MineExactly(bus, e);
    AboveExactly(bus[..now], after, last);
    InBusPrefix(bus, now, b, last);
    AboveExactly(bus[..now], after, b);
    AboveAscends(bus[..now], after);
    assert above[..cut][cut - 1] == last;
    InBusPrefix(above, cut, b, last);
    MineExactly(above[..cut], e);
  }

  /** What is in the cut is the run's, above the cursor asked from and not above the one returned. */
  lemma CutIsSound(bus: seq<BusEntry>, now: nat, after: nat, cut: nat, e: Event)
    requires BusAscending(bus) && now <= |bus| && cut <= |BusAbove(bus[..now], after)|
    requires e in Mine(BusAbove(bus[..now], after)[..cut])
    ensures e in Mine(bus) && after < e.number && cut > 0 && e.number <= BusAbove(bus[..now], after)[cut - 1].event.number
  {
    hide BusAbove, Mine;
    var above, b := BusAbove(bus[..now], after), BusEntry(e, true);
    MineExactly(above[..cut], e);
    var k :| 0 <= k < cut && above[k] == b;
    AboveAscends(bus[..now], after);
    AboveExactly(bus[..now], after, b);
    MineExactly(bus, e);
  }

  /** Such a page is honest about the run's journal, also as the bus grows. */
  lemma BusPageIsHonest(bus: seq<BusEntry>, now: nat, after: nat, limit: nat)
    requires BusAscending(bus) && now <= |bus|
    ensures HonestPage(Mine(bus), after, BusPage(bus[..now], after, limit))
  {
    hide BusAbove, Mine, Ascending, BusAscending;
    var above := BusAbove(bus[..now], after);
    var cut := if |above| <= limit then |above| else limit;
    var page := BusPage(bus[..now], after, limit);
    CutAscends(bus, now, after, cut);
    forall e | e in page.entries
      ensures e in Mine(bus) && after < e.number && cut > 0 && e.number <= above[cut - 1].event.number
    {
      CutIsSound(bus, now, after, cut, e);
    }
    if cut == 0 {
      assert above[..0] == [];
      NothingIsMine();
    } else {
      AboveExactly(bus[..now], after, above[cut - 1]);
      forall e | e in Mine(bus) && after < e.number <= above[cut - 1].event.number
        ensures e in page.entries
      {
        CutIsComplete(bus, now, after, cut, e);
      }
    }
  }

  lemma NothingIsMine()
    ensures Mine([]) == []
  {
  }

  lemma CutAscends(bus: seq<BusEntry>, now: nat, after: nat, cut: nat)
    requires BusAscending(bus) && now <= |bus| && cut <= |BusAbove(bus[..now], after)|
    ensures Ascending(Mine(BusAbove(bus[..now], after)[..cut]))
  {
    hide BusAbove, Mine;
    AboveAscends(bus[..now], after);
    MineAscends(BusAbove(bus[..now], after)[..cut]);
  }
}
