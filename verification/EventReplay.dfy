/**
 * Replaying a run's durable events after the live stream reports a gap, and the watcher that
 * carries the cursor across streams and replays. The page source is any answer per call.
 */
module EventReplay {

  import opened Wrappers

  const U64_MAX := 0xFFFF_FFFF_FFFF_FFFF
  type u64 = x: nat | x <= U64_MAX

  datatype Entry = Entry(number: u64, update: string)

  datatype Answer =
    | Page(entries: seq<Entry>, next: Option<u64>, expired: bool)
    | CursorExpired
    | Failed

  datatype Outcome = Replayed | Expired | Broken

  predicate Ascending(entries: seq<Entry>) {
    forall i, j :: 0 <= i < j < |entries| ==> entries[i].number < entries[j].number
  }

  predicate Within(entries: seq<Entry>, low: u64, high: u64) {
    forall i :: 0 <= i < |entries| ==> low < entries[i].number <= high
  }

  /** The highest number a page vouches for. */
  function Bound(after: u64, a: Answer): u64
    requires a.Page?
  {
    var last := if a.entries == [] then after else Max(after, a.entries[|a.entries| - 1].number);
    if a.next.Some? then Max(last, a.next.value) else last
  }

  function Max(a: u64, b: u64): u64 {
    if a < b then b else a
  }

  /**
   * A page is honest about a journal when it is in order, invents nothing, and leaves out no
   * journal entry between the cursor it was asked for and the highest number it vouches for.
   */
  ghost predicate Honest(journal: seq<Entry>, after: u64, a: Answer) {
    a.Page? && !a.expired ==>
      && Ascending(a.entries)
      && (forall e :: e in a.entries ==> e in journal)
      && (forall e :: e in journal && after < e.number <= Bound(after, a) ==> e in a.entries)
  }

  /** Nothing of the journal between two cursors was left out. */
  ghost predicate Covered(journal: seq<Entry>, emitted: seq<Entry>, low: u64, high: u64) {
    forall e :: e in journal && low < e.number <= high ==> e in emitted
  }

  ghost predicate AllHonest(journal: seq<Entry>, source: (nat, u64) -> Answer) {
    forall call: nat, after: u64 :: Honest(journal, after, source(call, after))
  }

  /** A call went on to the next one: its page pointed strictly past everything on it. */
  ghost predicate Continues(a: Answer, to: u64) {
    a.Page? && !a.expired && a.next == Some(to) && forall e :: e in a.entries ==> e.number < to
  }

  /** Every call but the last went on to the one after it, from a strictly higher cursor. `call` numbers the first. */
  ghost predicate Chained(source: (nat, u64) -> Answer, call: nat, asked: seq<u64>) {
    forall i :: 0 <= i < |asked| - 1 ==> asked[i] < asked[i + 1] && Continues(source(call + i, asked[i]), asked[i + 1])
  }

  function OutcomeOf(a: Answer): Outcome {
    if a.Failed? then Broken else if a.CursorExpired? || a.expired then Expired else Replayed
  }

  lemma OneMore(emitted: seq<Entry>, e: Entry, low: u64, high: u64)
    requires Ascending(emitted) && Within(emitted, low, high) && low <= high < e.number
    ensures Ascending(emitted + [e]) && Within(emitted + [e], low, e.number)
  {
  }

  /** The cursor after a page: the highest number met so far. */
  function CursorAfter(entries: seq<Entry>, start: u64): (r: u64)
    ensures start <= r
  {
    if entries == [] then start else Max(CursorAfter(entries[..|entries| - 1], start), entries[|entries| - 1].number)
  }

  /** What a page makes emitted: each entry above everything before it. */
  function Emitted(entries: seq<Entry>, start: u64): seq<Entry> {
    if entries == [] then []
    else
      var front, last := entries[..|entries| - 1], entries[|entries| - 1];
      Emitted(front, start) + if last.number <= CursorAfter(front, start) then [] else [last]
  }

  lemma {:induction false} EmittedClimbs(entries: seq<Entry>, start: u64)
    ensures Ascending(Emitted(entries, start)) && Within(Emitted(entries, start), start, CursorAfter(entries, start))
  {
    if entries != [] {
      var front, last := entries[..|entries| - 1], entries[|entries| - 1];
      EmittedClimbs(front, start);
      if last.number > CursorAfter(front, start) { OneMore(Emitted(front, start), last, start, CursorAfter(front, start)); }
      else { assert Emitted(front, start) + [] == Emitted(front, start); }
    }
  }

  lemma {:induction false} EmittedIsOnPage(entries: seq<Entry>, start: u64, e: Entry)
    ensures e in Emitted(entries, start) ==> e in entries
    ensures e in entries ==> e.number <= CursorAfter(entries, start)
  {
    if entries != [] {
      assert entries == entries[..|entries| - 1] + [entries[|entries| - 1]];
      EmittedIsOnPage(entries[..|entries| - 1], start, e);
    }
  }

  lemma FrontAscends(entries: seq<Entry>)
    requires Ascending(entries) && entries != []
    ensures var front := entries[..|entries| - 1];
            Ascending(front) && (front != [] ==> front[|front| - 1].number < entries[|entries| - 1].number)
  {
  }

  lemma {:induction false} OrderedPageEnds(entries: seq<Entry>, start: u64)
    requires Ascending(entries)
    ensures CursorAfter(entries, start) == if entries == [] then start else Max(start, entries[|entries| - 1].number)
  {
    hide Ascending;
    if entries != [] {
      FrontAscends(entries);
      OrderedPageEnds(entries[..|entries| - 1], start);
    }
  }

  /** Of a page in order nothing above the cursor is skipped. */
  lemma {:induction false} OrderedPageIsEmitted(entries: seq<Entry>, start: u64, e: Entry)
    requires Ascending(entries) && e in entries && start < e.number
    ensures e in Emitted(entries, start)
  {
    hide Ascending, CursorAfter;
    var front, last := entries[..|entries| - 1], entries[|entries| - 1];
    assert entries == front + [last];
    FrontAscends(entries);
    OrderedPageEnds(front, start);
    if e in front { OrderedPageIsEmitted(front, start, e); }
  }

  /** One page: entries at or below the cursor are skipped, the others raise it and are emitted. */
  method EmitPage(entries: seq<Entry>, start: u64) returns (cursor: u64, emitted: seq<Entry>)
    ensures cursor == CursorAfter(entries, start) && emitted == Emitted(entries, start)
  {
    cursor, emitted := start, [];
    for i := 0 to |entries|
      invariant cursor == CursorAfter(entries[..i], start) && emitted == Emitted(entries[..i], start)
    {
      assert entries[..i + 1][..i] == entries[..i];
      if entries[i].number <= cursor { continue; }
      cursor := entries[i].number;
      emitted := emitted + [entries[i]];
    }
    assert entries[..|entries|] == entries;
  }

  lemma AppendAbove(emitted: seq<Entry>, more: seq<Entry>, low: u64, mid: u64, high: u64)
    requires Ascending(emitted) && Within(emitted, low, mid) && Ascending(more) && Within(more, mid, high)
    requires low <= mid <= high
    ensures Ascending(emitted + more) && Within(emitted + more, low, high)
  {
  }

  /** What a replay did: how it ended, where the cursor is, what was emitted, and from which cursors it asked. */
  datatype Trace = Trace(outcome: Outcome, cursor: u64, emitted: seq<Entry>, asked: seq<u64>)

  /** A replay that makes its call number `call` from a cursor. It goes on only past everything on the page. */
  function ReplayFrom(source: (nat, u64) -> Answer, call: nat, cursor: u64): Trace
    decreases U64_MAX - cursor
  {
    var page := source(call, cursor);
    if !OutcomeOf(page).Replayed? then Trace(OutcomeOf(page), cursor, [], [cursor])
    else
      var higher, more := CursorAfter(page.entries, cursor), Emitted(page.entries, cursor);
      if page.next.None? || page.next.value <= higher then Trace(Replayed, higher, more, [cursor])
      else Then([cursor], more, ReplayFrom(source, call + 1, page.next.value))
  }

  function Then(asked: seq<u64>, emitted: seq<Entry>, rest: Trace): Trace {
    rest.(emitted := emitted + rest.emitted, asked := asked + rest.asked)
  }

  /** What is emitted strictly increases, above the starting cursor and up to the final one. */
  lemma {:induction false} ReplayClimbs(source: (nat, u64) -> Answer, call: nat, start: u64)
    ensures var t := ReplayFrom(source, call, start);
            start <= t.cursor && Ascending(t.emitted) && Within(t.emitted, start, t.cursor)
    decreases U64_MAX - start
  {
    hide Ascending, Within;
    NothingYet(start);
    var page := source(call, start);
    if OutcomeOf(page).Replayed? {
      var higher, more := CursorAfter(page.entries, start), Emitted(page.entries, start);
      EmittedClimbs(page.entries, start);
      if page.next.Some? && higher < page.next.value {
        ReplayClimbs(source, call + 1, page.next.value);
        var rest := ReplayFrom(source, call + 1, page.next.value);
        Lifted(more, start, higher, page.next.value);
        AppendAbove(more, rest.emitted, start, page.next.value, rest.cursor);
      }
    }
  }

  lemma NothingYet(start: u64)
    ensures Ascending([]) && Within([], start, start)
  {
  }

  lemma Lifted(emitted: seq<Entry>, low: u64, high: u64, higher: u64)
    requires Within(emitted, low, high) && high <= higher
    ensures Within(emitted, low, higher)
  {
  }

  /** Every further call asks from a strictly higher cursor. */
  lemma {:induction false} ReplayChains(source: (nat, u64) -> Answer, call: nat, start: u64)
    ensures var t := ReplayFrom(source, call, start);
            |t.asked| > 0 && t.asked[0] == start && Chained(source, call, t.asked)
    decreases U64_MAX - start
  {
    hide Continues, Emitted, CursorAfter, Chained;
    var page := source(call, start);
    if OutcomeOf(page).Replayed? && page.next.Some? && CursorAfter(page.entries, start) < page.next.value {
      ReplayChains(source, call + 1, page.next.value);
      PointsPast(page, start);
      ChainGrows(source, call, start, ReplayFrom(source, call + 1, page.next.value).asked);
    } else {
      OneLink(source, call, start);
    }
  }

  lemma OneLink(source: (nat, u64) -> Answer, call: nat, start: u64)
    ensures Chained(source, call, [start])
  {
  }

  /** The last answer decides how the replay ends, and where its cursor is. */
  lemma {:induction false} ReplayEnds(source: (nat, u64) -> Answer, call: nat, start: u64)
    ensures var t := ReplayFrom(source, call, start);
            && |t.asked| > 0 && t.asked[|t.asked| - 1] <= t.cursor
            && var last := source(call + |t.asked| - 1, t.asked[|t.asked| - 1]);
               && t.outcome == OutcomeOf(last)
               && (t.outcome.Replayed? && Ascending(last.entries) ==> t.cursor == Bound(t.asked[|t.asked| - 1], last))
    decreases U64_MAX - start
  {
    hide Ascending, Emitted, CursorAfter;
    var page := source(call, start);
    if OutcomeOf(page).Replayed? {
      if page.next.Some? && CursorAfter(page.entries, start) < page.next.value {
        ReplayEnds(source, call + 1, page.next.value);
      } else if Ascending(page.entries) {
        OrderedPageEnds(page.entries, start);
      }
    }
  }

  lemma PointsPast(a: Answer, start: u64)
    requires a.Page? && !a.expired && a.next.Some? && CursorAfter(a.entries, start) < a.next.value
    ensures Continues(a, a.next.value)
  {
    forall e | e in a.entries
      ensures e.number < a.next.value
    {
      EmittedIsOnPage(a.entries, start, e);
    }
  }

  lemma ChainGrows(source: (nat, u64) -> Answer, call: nat, from: u64, asked: seq<u64>)
    requires asked != [] && Chained(source, call + 1, asked)
    requires from < asked[0] && Continues(source(call, from), asked[0])
    ensures Chained(source, call, [from] + asked)
  {
    hide Continues;
    var all := [from] + asked;
    forall i | 0 <= i < |all| - 1
      ensures all[i] < all[i + 1] && Continues(source(call + i, all[i]), all[i + 1])
    {
      if i > 0 { assert Continues(source(call + 1 + (i - 1), asked[i - 1]), asked[i - 1 + 1]); }
    }
  }

  /** Against honest pages nothing between the starting cursor and the final one is left out or made up. */
  lemma {:induction false} ReplayCovers(journal: seq<Entry>, source: (nat, u64) -> Answer, call: nat, start: u64)
    requires AllHonest(journal, source)
    ensures var t := ReplayFrom(source, call, start);
            (forall e :: e in t.emitted ==> e in journal) && Covered(journal, t.emitted, start, t.cursor)
    decreases U64_MAX - start
  {
    hide Ascending, AllHonest, Honest;
    var page := source(call, start);
    if OutcomeOf(page).Replayed? {
      HonestAt(journal, source, call, start);
      PageCovers(journal, page, start);
      if page.next.Some? && CursorAfter(page.entries, start) < page.next.value {
        ReplayCovers(journal, source, call + 1, page.next.value);
      }
    }
  }

  lemma PageCovers(journal: seq<Entry>, a: Answer, start: u64)
    requires a.Page? && !a.expired && Ascending(a.entries) && Honest(journal, start, a)
    ensures forall e :: e in Emitted(a.entries, start) ==> e in journal
    ensures Covered(journal, Emitted(a.entries, start), start, CursorAfter(a.entries, start))
    ensures a.next.Some? && CursorAfter(a.entries, start) < a.next.value ==>
              Covered(journal, Emitted(a.entries, start), start, a.next.value)
  {
    hide Ascending, CursorAfter, Emitted;
    OrderedPageEnds(a.entries, start);
    forall e: Entry
      ensures e in Emitted(a.entries, start) ==> e in a.entries
      ensures e in a.entries && start < e.number ==> e in Emitted(a.entries, start)
    {
      EmittedIsOnPage(a.entries, start, e);
      if e in a.entries && start < e.number { OrderedPageIsEmitted(a.entries, start, e); }
    }
  }

  lemma HonestAt(journal: seq<Entry>, source: (nat, u64) -> Answer, call: nat, after: u64)
    requires AllHonest(journal, source) && OutcomeOf(source(call, after)).Replayed?
    ensures Honest(journal, after, source(call, after)) && Ascending(source(call, after).entries)
  {
  }

  /**
   * `replay_remote_events`. Against any source: what is emitted strictly increases, lies above the
   * starting cursor and at or below the final one, the cursor never falls, and every further call
   * asks from a strictly higher cursor, so there are finitely many. Against honest pages nothing
   * between the two cursors is left out.
   */
  method Replay(source: (nat, u64) -> Answer, start: u64, ghost journal: seq<Entry>)
    returns (outcome: Outcome, cursor: u64, emitted: seq<Entry>, asked: seq<u64>)
    ensures Trace(outcome, cursor, emitted, asked) == ReplayFrom(source, 0, start)
    ensures start <= cursor
    ensures Ascending(emitted) && Within(emitted, start, cursor)
    ensures |asked| > 0 && asked[0] == start && Chained(source, 0, asked) && asked[|asked| - 1] <= cursor
    ensures outcome == OutcomeOf(source(|asked| - 1, asked[|asked| - 1]))
    ensures outcome.Replayed? && Ascending(source(|asked| - 1, asked[|asked| - 1]).entries) ==>
              cursor == Bound(asked[|asked| - 1], source(|asked| - 1, asked[|asked| - 1]))
    ensures AllHonest(journal, source) ==>
              (forall e :: e in emitted ==> e in journal) && Covered(journal, emitted, start, cursor)
  {
    hide Ascending, Within, Covered, Chained, AllHonest, Bound, CursorAfter, Emitted, ReplayFrom, Then;
    ReplayClimbs(source, 0, start);
    ReplayChains(source, 0, start);
    ReplayEnds(source, 0, start);
    if AllHonest(journal, source) { ReplayCovers(journal, source, 0, start); }
    cursor, emitted, asked := start, [], [];
    assert Then(asked, emitted, ReplayFrom(source, 0, start)) == ReplayFrom(source, 0, start) by { ThenNothing(source, start); }
    while true
      invariant Then(asked, emitted, ReplayFrom(source, |asked|, cursor)) == ReplayFrom(source, 0, start)
      decreases U64_MAX - cursor
    {
      var page := source(|asked|, cursor);
      PageStep(source, asked, emitted, cursor);
      asked := asked + [cursor];
      match page
      case CursorExpired => return Expired, cursor, emitted, asked;
      case Failed => return Broken, cursor, emitted, asked;
      case Page(entries, next, expired) =>
        if expired { return Expired, cursor, emitted, asked; }
        var more;
        cursor, more := EmitPage(entries, cursor);
        emitted := emitted + more;
        if next.None? || next.value <= cursor {
          return Replayed, cursor, emitted, asked;
        }
        cursor := next.value;
    }
  }

  lemma ThenNothing(source: (nat, u64) -> Answer, start: u64)
    ensures Then([], [], ReplayFrom(source, 0, start)) == ReplayFrom(source, 0, start)
  {
    hide ReplayFrom;
    var t := ReplayFrom(source, 0, start);
    assert [] + t.asked == t.asked && [] + t.emitted == t.emitted;
  }

  /** One page of a replay that has already asked and emitted something. */
  lemma PageStep(source: (nat, u64) -> Answer, asked: seq<u64>, emitted: seq<Entry>, cursor: u64)
    ensures var page, all := source(|asked|, cursor), asked + [cursor];
            Then(asked, emitted, ReplayFrom(source, |asked|, cursor)) ==
            if !OutcomeOf(page).Replayed? then Trace(OutcomeOf(page), cursor, emitted, all)
            else
              var higher, more := CursorAfter(page.entries, cursor), Emitted(page.entries, cursor);
              if page.next.None? || page.next.value <= higher then Trace(Replayed, higher, emitted + more, all)
              else Then(all, emitted + more, ReplayFrom(source, |all|, page.next.value))
  {
    var page := source(|asked|, cursor);
    if !OutcomeOf(page).Replayed? {
      assert emitted + [] == emitted;
    } else if page.next.Some? && CursorAfter(page.entries, cursor) < page.next.value {
      ThenThen(asked, cursor, emitted, Emitted(page.entries, cursor), ReplayFrom(source, |asked| + 1, page.next.value));
    }
  }

  lemma ThenThen(asked: seq<u64>, from: u64, emitted: seq<Entry>, more: seq<Entry>, rest: Trace)
    ensures Then(asked, emitted, Then([from], more, rest)) == Then(asked + [from], emitted + more, rest)
  {
    assert asked + ([from] + rest.asked) == asked + [from] + rest.asked;
    assert emitted + (more + rest.emitted) == emitted + more + rest.emitted;
  }

  // ------------------------------------------------------- the server's pages

  const PAGE_LIMIT := 500

  /** The journal of a run above a cursor. */
  function Tail(journal: seq<Entry>, after: u64): seq<Entry> {
    if journal == [] then []
    else if journal[0].number > after then [journal[0]] + Tail(journal[1..], after)
    else Tail(journal[1..], after)
  }

  /** `events_page_for_run`: at most 500 entries, and the number of the last of them. */
  function ServerPage(journal: seq<Entry>, after: u64): Answer {
    var tail := Tail(journal, after);
    var entries := if |tail| <= PAGE_LIMIT then tail else tail[..PAGE_LIMIT];
    Page(entries, if entries == [] then None else Some(entries[|entries| - 1].number), false)
  }

  lemma {:induction false} TailIsFilter(journal: seq<Entry>, after: u64)
    ensures forall e :: e in Tail(journal, after) <==> e in journal && after < e.number
  {
    if journal != [] {
      TailIsFilter(journal[1..], after);
      assert forall e :: e in journal <==> e == journal[0] || e in journal[1..];
    }
  }

  lemma {:induction false} TailAscends(journal: seq<Entry>, after: u64)
    requires Ascending(journal)
    ensures Ascending(Tail(journal, after))
  {
    if journal != [] {
      var rest := Tail(journal[1..], after);
      TailAscends(journal[1..], after);
      TailIsFilter(journal[1..], after);
      assert forall i :: 0 <= i < |rest| ==> rest[i] in journal[1..];
      assert forall e :: e in journal[1..] ==> journal[0].number < e.number;
    }
  }

  /** In an ascending sequence whatever is not above an element of a prefix is in the prefix. */
  lemma InPrefix(s: seq<Entry>, n: nat, e: Entry, last: Entry)
    requires Ascending(s) && n <= |s| && e in s && last in s[..n] && e.number <= last.number
    ensures e in s[..n]
  {
  }

  /** A page cut from the journal as it stood stays honest about the journal as it grows. */
  lemma ServerIsHonest(journal: seq<Entry>, now: nat, after: u64)
    requires Ascending(journal) && now <= |journal|
    ensures Honest(journal, after, ServerPage(journal[..now], after))
  {
    hide Tail;
    var held := journal[..now];
    TailIsFilter(held, after);
    TailAscends(held, after);
    var tail, page := Tail(held, after), ServerPage(held, after);
    assert forall e :: e in page.entries ==> e in tail;
    forall e | e in journal && after < e.number <= Bound(after, page)
      ensures e in page.entries
    {
      var last := page.entries[|page.entries| - 1];
      assert last in tail && last in held;
      InPrefix(journal, now, e, last);
      InPrefix(tail, |page.entries|, e, last);
    }
  }

  /**
   * Against the server's own pages a replay asks exactly once: a page's cursor is the number of
   * its last entry. It therefore reaches the end of the journal exactly when at most 500 entries
   * lie above the starting cursor.
   */
  method ReplayServer(journal: seq<Entry>, start: u64) returns (cursor: u64, emitted: seq<Entry>)
    requires Ascending(journal)
    ensures forall e :: e in emitted <==> e in journal && start < e.number <= cursor
    ensures emitted == if |Tail(journal, start)| <= PAGE_LIMIT then Tail(journal, start) else Tail(journal, start)[..PAGE_LIMIT]
    ensures (forall e :: e in journal && start < e.number ==> e in emitted) <==> |Tail(journal, start)| <= PAGE_LIMIT
  {
    hide ServerPage, Tail, Honest, Emitted, CursorAfter;
    var source := (call: nat, after: u64) => ServerPage(journal, after);
    forall call: nat, after: u64
      ensures Honest(journal, after, source(call, after))
    {
      assert journal[..|journal|] == journal;
      ServerIsHonest(journal, |journal|, after);
    }
    assert AllHonest(journal, source);
    var outcome, asked;
    outcome, cursor, emitted, asked := Replay(source, start, journal);
    ServerPageEnds(journal, asked[0]);
    OneCall(source, asked);
    ServerReach(journal, start, cursor);
    FirstPageIsEmitted(journal, start, source);
  }

  /** The server's page lies above the cursor and is in order, so all of it is emitted, and there is no second. */
  lemma FirstPageIsEmitted(journal: seq<Entry>, start: u64, source: (nat, u64) -> Answer)
    requires Ascending(journal) && source(0, start) == ServerPage(journal, start)
    ensures ReplayFrom(source, 0, start).emitted
         == if |Tail(journal, start)| <= PAGE_LIMIT then Tail(journal, start) else Tail(journal, start)[..PAGE_LIMIT]
  {
    hide Tail, Emitted, CursorAfter;
    var page := ServerPage(journal, start);
    TailIsFilter(journal, start);
    TailAscends(journal, start);
    if page.entries != [] { assert page.entries[0] in Tail(journal, start); }
    AllEmitted(page.entries, start);
    if page.entries != [] { EmittedIsOnPage(page.entries, start, page.entries[|page.entries| - 1]); }
  }

  lemma {:induction false} AllEmitted(entries: seq<Entry>, start: u64)
    requires Ascending(entries) && (entries != [] ==> start < entries[0].number)
    ensures Emitted(entries, start) == entries
  {
    if entries != [] {
      hide Ascending, CursorAfter, Emitted;
      var front, last := entries[..|entries| - 1], entries[|entries| - 1];
      FrontAscends(entries);
      OrderedPageEnds(front, start);
      AllEmitted(front, start);
      HeadIsLeast(entries);
      OneMoreEmitted(entries, start);
      assert front + [last] == entries;
    }
  }

  lemma OneMoreEmitted(entries: seq<Entry>, start: u64)
    requires entries != [] && CursorAfter(entries[..|entries| - 1], start) < entries[|entries| - 1].number
    ensures Emitted(entries, start) == Emitted(entries[..|entries| - 1], start) + [entries[|entries| - 1]]
  {
  }

  lemma HeadIsLeast(entries: seq<Entry>)
    requires Ascending(entries) && entries != []
    ensures entries[0].number <= entries[|entries| - 1].number
  {
  }

  /** The server never answers with an error here, and never points past its own page. */
  lemma ServerPageEnds(journal: seq<Entry>, after: u64)
    requires Ascending(journal)
    ensures var a := ServerPage(journal, after);
            && a.Page? && !a.expired && Ascending(a.entries) && (a.next.Some? <==> a.entries != [])
            && (a.next.Some? ==> exists e :: e in a.entries && e.number == a.next.value)
  {
    var a := ServerPage(journal, after);
    TailAscends(journal, after);
    if a.next.Some? { assert a.entries[|a.entries| - 1] in a.entries; }
  }

  lemma OneCall(source: (nat, u64) -> Answer, asked: seq<u64>)
    requires asked != [] && Chained(source, 0, asked)
    requires var a := source(0, asked[0]);
             a.Page? && a.next.Some? ==> exists e :: e in a.entries && e.number == a.next.value
    ensures |asked| == 1
  {
    assert |asked| > 1 ==> Continues(source(0 + 0, asked[0]), asked[0 + 1]);
  }

  lemma ServerReach(journal: seq<Entry>, start: u64, cursor: u64)
    requires Ascending(journal) && cursor == Bound(start, ServerPage(journal, start))
    ensures (forall e :: e in journal && start < e.number ==> e.number <= cursor) <==> |Tail(journal, start)| <= PAGE_LIMIT
  {
    hide Tail;
    TailIsFilter(journal, start);
    TailAscends(journal, start);
    var tail := Tail(journal, start);
    if |tail| > PAGE_LIMIT {
      CutTail(tail, start);
      assert tail[PAGE_LIMIT] in tail;
    } else {
      WholeTail(tail, start);
    }
  }

  lemma WholeTail(tail: seq<Entry>, start: u64)
    requires Ascending(tail)
    ensures var next := if tail == [] then None else Some(tail[|tail| - 1].number);
            forall e :: e in tail ==> e.number <= Bound(start, Page(tail, next, false))
  {
  }

  lemma CutTail(tail: seq<Entry>, start: u64)
    requires Ascending(tail) && |tail| > PAGE_LIMIT && start < tail[0].number
    ensures tail[PAGE_LIMIT].number > Bound(start, Page(tail[..PAGE_LIMIT], Some(tail[PAGE_LIMIT - 1].number), false))
  {
  }

  // ------------------------------------------------------------------ watcher

  /** What a watcher meets: a stream that cannot be opened, a live event, a reported gap, a stream that ends. */
  datatype Input =
    | OpenFailed(expired: bool)
    | Live(number: u64, complete: bool)
    | Gap(after: u64, source: (nat, u64) -> Answer)
    | Closed

  /** The number an input says has already been seen. */
  function Mark(input: Input): u64 {
    match input
    case Live(number, _) => number
    case Gap(after, _) => after
    case _ => 0
  }

  /** What the watcher does at a gap: replay from the higher of its cursor and the gap's. */
  function Filled(input: Input, cursor: u64): Trace
    requires input.Gap?
  {
    ReplayFrom(input.source, 0, Max(cursor, input.after))
  }

  /** The inputs after which a watcher is done: a completed turn, or a cursor the server no longer keeps. */
  predicate Stops(input: Input, cursor: u64) {
    match input
    case OpenFailed(expired) => expired
    case Live(_, complete) => complete
    case Gap(_, _) => Filled(input, cursor).outcome.Expired?
    case Closed => false
  }

  /** One input takes the cursor from one value to the next and emits a batch. */
  predicate Moves(input: Input, from: u64, to: u64, batch: seq<Entry>) {
    if input.Gap? then to == Filled(input, from).cursor && batch == Filled(input, from).emitted
    else to == Max(from, Mark(input)) && batch == []
  }

  /** A watcher that met as many inputs as there are batches. */
  predicate Watched(inputs: seq<Input>, cursors: seq<u64>, batches: seq<seq<Entry>>) {
    && |batches| <= |inputs| && |cursors| == |batches| + 1 && cursors[0] == 0
    && forall k :: 0 <= k < |batches| ==> Moves(inputs[k], cursors[k], cursors[k + 1], batches[k])
  }

  function Joined(batches: seq<seq<Entry>>): seq<Entry> {
    if batches == [] then [] else Joined(batches[..|batches| - 1]) + batches[|batches| - 1]
  }

  lemma MoveRises(input: Input, from: u64, to: u64, batch: seq<Entry>)
    requires Moves(input, from, to, batch)
    ensures Max(from, Mark(input)) <= to
    ensures Ascending(batch) && Within(batch, Max(from, Mark(input)), to)
  {
    if input.Gap? { ReplayClimbs(input.source, 0, Max(from, input.after)); }
  }

  /** The cursor never falls, and is at least every number met before. */
  lemma {:induction false} CursorRises(inputs: seq<Input>, cursors: seq<u64>, batches: seq<seq<Entry>>, j: nat, k: nat)
    requires Watched(inputs, cursors, batches) && j <= k < |cursors|
    ensures cursors[j] <= cursors[k]
    ensures j < k ==> Mark(inputs[j]) <= cursors[k]
  {
    if j < k {
      CursorRises(inputs, cursors, batches, j, k - 1);
      MoveRises(inputs[k - 1], cursors[k - 1], cursors[k], batches[k - 1]);
    }
  }

  /** A replay emits nothing at or below a live event, a gap or another replay's event that came before it. */
  lemma ReplaysNeverRepeat(inputs: seq<Input>, cursors: seq<u64>, batches: seq<seq<Entry>>, j: nat, k: nat)
    requires Watched(inputs, cursors, batches) && j <= k < |batches|
    ensures forall e :: e in batches[k] ==> Mark(inputs[j]) < e.number
    ensures j < k ==> forall d, e :: d in batches[j] && e in batches[k] ==> d.number < e.number
  {
    MoveRises(inputs[j], cursors[j], cursors[j + 1], batches[j]);
    MoveRises(inputs[k], cursors[k], cursors[k + 1], batches[k]);
    if j < k { CursorRises(inputs, cursors, batches, j + 1, k); }
  }

  lemma {:induction false} JoinedClimbs(inputs: seq<Input>, cursors: seq<u64>, batches: seq<seq<Entry>>, k: nat)
    requires Watched(inputs, cursors, batches) && k <= |batches|
    ensures Ascending(Joined(batches[..k])) && Within(Joined(batches[..k]), 0, cursors[k])
  {
    hide Moves, Ascending, Within;
    if k == 0 {
      NothingYet(0);
    } else {
      JoinedClimbs(inputs, cursors, batches, k - 1);
      MoveRises(inputs[k - 1], cursors[k - 1], cursors[k], batches[k - 1]);
      assert batches[..k][..k - 1] == batches[..k - 1];
      Lifted(Joined(batches[..k - 1]), 0, cursors[k - 1], Max(cursors[k - 1], Mark(inputs[k - 1])));
      AppendAbove(Joined(batches[..k - 1]), batches[k - 1], 0, Max(cursors[k - 1], Mark(inputs[k - 1])), cursors[k]);
    }
  }

  lemma WatchGrows(inputs: seq<Input>, cursors: seq<u64>, batches: seq<seq<Entry>>, to: u64, batch: seq<Entry>)
    requires Watched(inputs, cursors, batches) && |batches| < |inputs|
    requires Moves(inputs[|batches|], cursors[|batches|], to, batch)
    ensures Watched(inputs, cursors + [to], batches + [batch])
  {
  }

  /**
   * `run_watcher` over any sequence of inputs. It stops at the first input that ends it and nowhere
   * before. At every input its cursor rises to what that input vouches for, and at a gap it emits
   * exactly what a replay from there yields. So the final cursor is at least every number met, and
   * what the replays emit strictly increases over the whole life of the watcher.
   */
  method Watch(inputs: seq<Input>) returns (cursors: seq<u64>, batches: seq<seq<Entry>>)
    ensures Watched(inputs, cursors, batches)
    ensures forall k :: 0 <= k < |batches| - 1 ==> !Stops(inputs[k], cursors[k])
    ensures |batches| < |inputs| ==> |batches| > 0 && Stops(inputs[|batches| - 1], cursors[|batches| - 1])
    ensures forall k :: 0 <= k < |batches| ==> Mark(inputs[k]) <= cursors[|batches|]
    ensures Ascending(Joined(batches)) && Within(Joined(batches), 0, cursors[|batches|])
  {
    hide ReplayFrom, Watched, Ascending, Within, Chained, AllHonest, Covered;
    var cursor: u64, over := 0, false;
    cursors, batches := [0], [];
    assert Watched(inputs, cursors, batches) by { NothingWatched(inputs); }
    while |batches| < |inputs| && !over
      invariant |batches| <= |inputs| && |cursors| == |batches| + 1 && cursors[|batches|] == cursor
      invariant Watched(inputs, cursors, batches)
      invariant forall k :: 0 <= k < |batches| - (if over then 1 else 0) ==> !Stops(inputs[k], cursors[k])
      invariant over ==> |batches| > 0 && Stops(inputs[|batches| - 1], cursors[|batches| - 1])
    {
      ghost var before := cursor;
      var input := inputs[|batches|];
      var batch: seq<Entry> := [];
      match input {
        case OpenFailed(expired) => over := expired;
        case Closed =>
        case Live(number, complete) =>
          cursor := Max(cursor, number);
          over := complete;
        case Gap(after, source) =>
          cursor := Max(cursor, after);
          var outcome, asked;
          outcome, cursor, batch, asked := Replay(source, cursor, []);
          over := outcome.Expired?;
      }
      assert Moves(input, before, cursor, batch) && over == Stops(input, before);
      WatchGrows(inputs, cursors, batches, cursor, batch);
      cursors, batches := cursors + [cursor], batches + [batch];
    }
    forall k | 0 <= k < |batches|
      ensures Mark(inputs[k]) <= cursors[|batches|]
    {
      CursorRises(inputs, cursors, batches, k, |batches|);
    }
    JoinedClimbs(inputs, cursors, batches, |batches|);
    assert batches[..|batches|] == batches;
  }

  lemma NothingWatched(inputs: seq<Input>)
    ensures Watched(inputs, [0], [])
  {
  }
}
