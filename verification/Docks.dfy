/**
 * The dock columns of the desktop: an ordered list of open lanes, changed by normalization,
 * opening beside, peeling, undocking, closing and dropping.
 */
module Docks {

  import opened Wrappers

  type Lane = nat

  predicate Distinct(d: seq<Lane>) {
    forall i, j :: 0 <= i < j < |d| ==> d[i] != d[j]
  }

  /** The first occurrence of each lane, in order. */
  function Unique(d: seq<Lane>): (r: seq<Lane>)
    ensures Distinct(r)
    ensures forall x :: x in r <==> x in d
    ensures |r| <= |d|
  {
    if d == [] then []
    else
      var front, last := Unique(d[..|d| - 1]), d[|d| - 1];
      assert d == d[..|d| - 1] + [last];
      if last in front then front else front + [last]
  }

  /** Every occurrence of a lane removed. */
  function Without(d: seq<Lane>, x: Lane): (r: seq<Lane>)
    ensures forall y :: y in r <==> y in d && y != x
    ensures |r| <= |d|
    ensures Distinct(d) ==> Distinct(r)
    ensures Distinct(d) ==> |r| == if x in d then |d| - 1 else |d|
  {
    if d == [] then []
    else
      var front, last := Without(d[..|d| - 1], x), d[|d| - 1];
      assert d == d[..|d| - 1] + [last];
      assert Distinct(d) ==> last !in d[..|d| - 1] && Distinct(d[..|d| - 1]);
      if last == x then front else front + [last]
  }

  function Cut(d: seq<Lane>, max: nat): (r: seq<Lane>)
    ensures Distinct(d) ==> Distinct(r)
    ensures |r| <= max && forall x :: x in r ==> x in d
  {
    if |d| <= max then d else d[..max]
  }

  /** `clampDocks`. */
  function Clamped(d: seq<Lane>, max: nat, focus: Option<Lane>): seq<Lane> {
    if max < 1 then []
    else if |d| <= max then Unique(d)
    else if focus.Some? && focus.value in Unique(d) then Cut([focus.value] + Without(Unique(d), focus.value), max)
    else Cut(Unique(d), max)
  }

  /** Bounded, without repeats, nothing invented, and a docked focus stays. */
  lemma ClampIsSafe(d: seq<Lane>, max: nat, focus: Option<Lane>)
    ensures var r := Clamped(d, max, focus);
            && Distinct(r) && |r| <= max && (forall x :: x in r ==> x in d)
            && (max >= 1 && focus.Some? && focus.value in d ==> focus.value in r)
  {
    var r := Clamped(d, max, focus);
    if max >= 1 && |d| > max && focus.Some? && focus.value in Unique(d) {
      var all := [focus.value] + Without(Unique(d), focus.value);
      assert Distinct(all);
      assert r[0] == focus.value;
    }
  }

  function Min(a: nat, b: nat): nat {
    if a < b then a else b
  }

  /**
   * As many docks stay as fit. They are the first ones in order, except that a docked focus stays
   * too; the lanes beside the focus are then the first of the others, in order.
   */
  lemma ClampKeepsMost(d: seq<Lane>, max: nat, focus: Option<Lane>)
    requires max >= 1
    ensures var r := Clamped(d, max, focus);
            && |r| == Min(max, |Unique(d)|)
            && (focus.None? || focus.value !in d ==> r <= Unique(d))
            && (focus.Some? && focus.value in d ==> Without(r, focus.value) <= Without(Unique(d), focus.value))
  {
    hide Unique, Without, Distinct;
    var u := Unique(d);
    if |d| > max && focus.Some? && focus.value in u {
      FocusFirst(u, max, focus.value);
    } else if |d| > max && |u| > max {
      assert u[..max] <= u;
    }
  }

  lemma FocusFirst(u: seq<Lane>, max: nat, f: Lane)
    requires Distinct(u) && f in u && max >= 1
    ensures var r := Cut([f] + Without(u, f), max);
            |r| == Min(max, |u|) && Without(r, f) <= Without(u, f)
  {
    var rest := Without(u, f);
    hide Without, Distinct;
    var kept := Cut(rest, max - 1);
    assert Cut([f] + rest, max) == [f] + kept;
    assert kept <= rest;
    WithoutHead(f, kept);
  }

  lemma WithoutStep(d: seq<Lane>, x: Lane)
    requires d != []
    ensures Without(d, x) == Without(d[..|d| - 1], x) + if d[|d| - 1] == x then [] else [d[|d| - 1]]
  {
  }

  lemma {:induction false} WithoutHead(x: Lane, rest: seq<Lane>)
    requires x !in rest
    ensures Without([x] + rest, x) == rest
  {
    hide Without, Distinct;
    var d := [x] + rest;
    WithoutStep(d, x);
    if rest == [] {
      assert d[..0] == [] && Without([], x) == [] by { WithoutNothing(x); }
    } else {
      assert d[..|d| - 1] == [x] + rest[..|rest| - 1];
      WithoutHead(x, rest[..|rest| - 1]);
      assert rest == rest[..|rest| - 1] + [rest[|rest| - 1]];
    }
  }

  lemma WithoutNothing(x: Lane)
    ensures Without([], x) == []
  {
  }

  lemma {:induction false} IndexOfAppend(d: seq<Lane>, last: Lane, x: Lane)
    ensures IndexOf(d + [last], x) == if x in d then IndexOf(d, x) else if x == last then |d| else -1
  {
    if d != [] {
      assert (d + [last])[1..] == d[1..] + [last];
      assert d == [d[0]] + d[1..];
      IndexOfAppend(d[1..], last, x);
    }
  }

  /** Repeats are dropped, not moved: what stays is in the order of first occurrence. */
  lemma {:induction false} UniqueKeepsFirsts(d: seq<Lane>, i: nat, j: nat)
    requires i < j < |Unique(d)|
    ensures IndexOf(d, Unique(d)[i]) < IndexOf(d, Unique(d)[j])
  {
    var front, last := d[..|d| - 1], d[|d| - 1];
    assert d == front + [last];
    IndexOfAppend(front, last, Unique(d)[i]);
    IndexOfAppend(front, last, Unique(d)[j]);
    if j < |Unique(front)| { UniqueKeepsFirsts(front, i, j); }
  }

  lemma {:induction false} UniqueOfDistinct(d: seq<Lane>)
    requires Distinct(d)
    ensures Unique(d) == d
  {
    if d != [] {
      UniqueOfDistinct(d[..|d| - 1]);
      assert d == d[..|d| - 1] + [d[|d| - 1]];
    }
  }

  method ClampDocks(d: seq<Lane>, max: nat, focus: Option<Lane>) returns (r: seq<Lane>)
    ensures r == Clamped(d, max, focus)
  {
    if max < 1 { return []; }
    var unique: seq<Lane> := [];
    for i := 0 to |d|
      invariant unique == Unique(d[..i])
    {
      assert d[..i + 1][..i] == d[..i];
      if d[i] in unique { continue; }
      unique := unique + [d[i]];
    }
    assert d[..|d|] == d;
    if |d| <= max { return unique; }
    if focus.Some? && focus.value in unique {
      return Cut([focus.value] + Without(unique, focus.value), max);
    }
    return Cut(unique, max);
  }

  // --------------------------------------------------------------- operations

  function Kept(d: seq<Lane>, open: set<Lane>): (r: seq<Lane>)
    ensures forall x :: x in r <==> x in d && x in open
  {
    if d == [] then []
    else
      var front, last := Kept(d[..|d| - 1], open), d[|d| - 1];
      assert d == d[..|d| - 1] + [last];
      if last in open then front + [last] else front
  }

  function AtLeastOne(max: nat): nat {
    if max < 1 then 1 else max
  }

  /** The effect that keeps docks valid. */
  function Normalize(d: seq<Lane>, open: set<Lane>, focus: Option<Lane>, max: nat): seq<Lane> {
    var kept := Kept(d, open);
    var next := if focus.Some? && focus.value in open && focus.value !in kept then [focus.value] + kept else kept;
    Clamped(next, AtLeastOne(max), focus)
  }

  function Undock(d: seq<Lane>, x: Lane): seq<Lane> {
    if |d| <= 1 then d else Without(d, x)
  }

  /** Index of the rightmost dock that is not the focus, or of the last dock. */
  function RightmostOther(d: seq<Lane>, focus: Option<Lane>): (i: nat)
    requires d != []
    ensures i < |d|
    ensures (exists k :: 0 <= k < |d| && Some(d[k]) != focus) ==> Some(d[i]) != focus
    ensures Some(d[i]) != focus ==> forall k :: i < k < |d| ==> Some(d[k]) == focus
    ensures Some(d[i]) == focus ==> i == |d| - 1
  {
    if Some(d[|d| - 1]) != focus || |d| == 1 then |d| - 1
    else
      var front := d[..|d| - 1];
      assert forall k :: 0 <= k < |front| ==> d[k] == front[k];
      var i := RightmostOther(front, focus);
      if Some(d[i]) != focus then i else |d| - 1
  }

  method FindReplaceAt(next: seq<Lane>, primary: Option<Lane>) returns (at: nat)
    requires next != []
    ensures at == RightmostOther(next, primary)
  {
    var i := |next| - 1;
    while i >= 0
      invariant -1 <= i < |next|
      invariant forall k :: i < k < |next| ==> Some(next[k]) == primary
    {
      if Some(next[i]) != primary { return i; }
      i := i - 1;
    }
    at := |next| - 1;
  }

  /** Peeling without a target removes the rightmost unfocused dock. */
  function Peel(d: seq<Lane>, focus: Option<Lane>): seq<Lane> {
    if |d| <= 1 then d else Without(d, d[RightmostOther(d, focus)])
  }

  /** The docks with the target taken out and the focus put in: what opening beside starts from. */
  function Base(d: seq<Lane>, target: Lane, focus: Option<Lane>): (r: seq<Lane>)
    ensures Distinct(d) ==> Distinct(r)
  {
    var rest := Without(d, target);
    if focus.Some? && focus.value !in rest then [focus.value] + rest else rest
  }

  /** Opening a lane beside the focus: append while there is room, else replace the rightmost unfocused dock. */
  function Beside(d: seq<Lane>, target: Lane, focus: Option<Lane>, max: nat): seq<Lane> {
    var next := Base(d, target, focus);
    if target in next then Clamped(next, max, focus)
    else if |next| < max || next == [] then Clamped(next + [target], max, focus)
    else Clamped(next[RightmostOther(next, focus) := target], max, focus)
  }

  function IndexOf(d: seq<Lane>, x: Lane): (i: int)
    ensures -1 <= i < |d|
    ensures i >= 0 ==> d[i] == x && x !in d[..i]
    ensures i < 0 <==> x !in d
  {
    if d == [] then -1
    else if d[0] == x then 0
    else
      var i := IndexOf(d[1..], x);
      assert d == [d[0]] + d[1..];
      if i < 0 then -1 else assert d[..i + 1] == [d[0]] + d[1..][..i]; i + 1
  }

  /** Dropping a lane on a dock swaps the two, or puts the lane in that dock's place. */
  function Drop(d: seq<Lane>, dragged: Lane, onto: Lane, max: nat, focus: Option<Lane>): seq<Lane> {
    if dragged == onto || IndexOf(d, onto) < 0 then d
    else
      var from, to := IndexOf(d, dragged), IndexOf(d, onto);
      var next := if from >= 0 then d[from := onto][to := dragged] else d[to := dragged];
      Clamped(next, max, focus)
  }

  // ------------------------------------------------------------- main results

  datatype Op =
    | Normalized(open: set<Lane>, focus: Option<Lane>, max: nat)
    | Undocked(lane: Lane)
    | Closed(lane: Lane)
    | Peeled(focus: Option<Lane>)
    | Opened(lane: Lane, focus: Option<Lane>, max: nat)
    | Dropped(dragged: Lane, onto: Lane, max: nat, focus: Option<Lane>)

  function Apply(d: seq<Lane>, op: Op): seq<Lane> {
    match op
    case Normalized(open, focus, max) => Normalize(d, open, focus, max)
    case Undocked(lane) => Undock(d, lane)
    case Closed(lane) => Without(d, lane)
    case Peeled(focus) => Peel(d, focus)
    case Opened(lane, focus, max) => Beside(d, lane, focus, max)
    case Dropped(dragged, onto, max, focus) => Drop(d, dragged, onto, max, focus)
  }

  function ApplyAll(d: seq<Lane>, ops: seq<Op>): seq<Lane> {
    if ops == [] then d else Apply(ApplyAll(d, ops[..|ops| - 1]), ops[|ops| - 1])
  }

  /** Over every sequence of operations, with any focus, capacity and open tabs, dock ids stay distinct. */
  lemma {:induction false} DocksStayDistinct(d: seq<Lane>, ops: seq<Op>)
    requires Distinct(d)
    ensures Distinct(ApplyAll(d, ops))
  {
    if ops != [] {
      var before := ApplyAll(d, ops[..|ops| - 1]);
      DocksStayDistinct(d, ops[..|ops| - 1]);
      StepStaysDistinct(before, ops[|ops| - 1]);
    }
  }

  lemma StepStaysDistinct(d: seq<Lane>, op: Op)
    requires Distinct(d)
    ensures Distinct(Apply(d, op))
  {
    hide Clamped, Distinct;
    match op
    case Normalized(open, focus, max) =>
      var kept := Kept(d, open);
      var next := if focus.Some? && focus.value in open && focus.value !in kept then [focus.value] + kept else kept;
      ClampIsSafe(next, AtLeastOne(max), focus);
    case Opened(lane, focus, max) =>
      var next := Base(d, lane, focus);
      ClampIsSafe(next, max, focus);
      ClampIsSafe(next + [lane], max, focus);
      if next != [] { ClampIsSafe(next[RightmostOther(next, focus) := lane], max, focus); }
    case Dropped(dragged, onto, max, focus) =>
      var from, to := IndexOf(d, dragged), IndexOf(d, onto);
      if to >= 0 && from >= 0 { ClampIsSafe(d[from := onto][to := dragged], max, focus); }
      if to >= 0 { ClampIsSafe(d[to := dragged], max, focus); }
    case _ =>
  }

  /** Normalization leaves only open tabs, within capacity, and the focus whenever it is open. */
  lemma NormalizeIsValid(d: seq<Lane>, open: set<Lane>, focus: Option<Lane>, max: nat)
    ensures var r := Normalize(d, open, focus, max);
            && Distinct(r) && |r| <= AtLeastOne(max) && (forall x :: x in r ==> x in open)
            && (focus.Some? && focus.value in open ==> focus.value in r)
  {
    hide Clamped;
    var kept := Kept(d, open);
    var next := if focus.Some? && focus.value in open && focus.value !in kept then [focus.value] + kept else kept;
    ClampIsSafe(next, AtLeastOne(max), focus);
  }

  lemma {:induction false} KeptOfOpen(d: seq<Lane>, open: set<Lane>)
    requires forall x :: x in d ==> x in open
    ensures Kept(d, open) == d
  {
    if d != [] {
      assert d == d[..|d| - 1] + [d[|d| - 1]];
      KeptOfOpen(d[..|d| - 1], open);
    }
  }

  /** Normalization leaves valid docks alone. */
  lemma NormalizeKeepsValid(d: seq<Lane>, open: set<Lane>, focus: Option<Lane>, max: nat)
    requires Distinct(d) && |d| <= AtLeastOne(max) && forall x :: x in d ==> x in open
    requires focus.Some? && focus.value in open ==> focus.value in d
    ensures Normalize(d, open, focus, max) == d
  {
    hide Kept, Unique;
    KeptOfOpen(d, open);
    UniqueOfDistinct(d);
  }

  /** With room to spare no open dock is lost, and nothing but an open focus comes in. */
  lemma NormalizeLosesOnlyClosed(d: seq<Lane>, open: set<Lane>, focus: Option<Lane>, max: nat, x: Lane)
    requires |d| < AtLeastOne(max)
    ensures x in Normalize(d, open, focus, max) <==> x in open && (x in d || focus == Some(x))
  {
    KeptIsNoLonger(d, open);
  }

  lemma {:induction false} KeptIsNoLonger(d: seq<Lane>, open: set<Lane>)
    ensures |Kept(d, open)| <= |d|
  {
    if d != [] { KeptIsNoLonger(d[..|d| - 1], open); }
  }

  /** Normalizing twice is normalizing once, so the effect settles. */
  lemma NormalizeIsIdempotent(d: seq<Lane>, open: set<Lane>, focus: Option<Lane>, max: nat)
    ensures Normalize(Normalize(d, open, focus, max), open, focus, max) == Normalize(d, open, focus, max)
  {
    NormalizeIsValid(d, open, focus, max);
    NormalizeKeepsValid(Normalize(d, open, focus, max), open, focus, max);
  }

  /** A peel removes exactly one dock, the rightmost that is not the focus, and so never the focus. */
  lemma PeelKeepsFocus(d: seq<Lane>, focus: Option<Lane>)
    requires Distinct(d) && |d| > 1
    ensures var gone := d[RightmostOther(d, focus)];
            && |Peel(d, focus)| == |d| - 1 && Some(gone) != focus
            && Peel(d, focus) == d[..RightmostOther(d, focus)] + d[RightmostOther(d, focus) + 1..]
            && (forall k :: RightmostOther(d, focus) < k < |d| ==> Some(d[k]) == focus)
  {
    WithoutClosesUp(d, RightmostOther(d, focus));
  }

  /** Taking a lane out of distinct docks closes up the rest and moves nothing else. */
  lemma {:induction false} WithoutClosesUp(d: seq<Lane>, i: nat)
    requires Distinct(d) && i < |d|
    ensures Without(d, d[i]) == d[..i] + d[i + 1..]
  {
    hide Without, Distinct;
    var front, last := d[..|d| - 1], d[|d| - 1];
    WithoutStep(d, d[i]);
    SplitLast(d);
    if i == |d| - 1 {
      WithoutNone(front, last);
      assert d[..i] + d[i + 1..] == front;
    } else {
      WithoutClosesUp(front, i);
      assert front[i] == d[i] && front[i] != last;
      assert front[..i] + front[i + 1..] + [last] == d[..i] + d[i + 1..];
    }
  }

  lemma SplitLast(d: seq<Lane>)
    requires Distinct(d) && d != []
    ensures Distinct(d[..|d| - 1])
    ensures forall k :: 0 <= k < |d| - 1 ==> d[k] != d[|d| - 1]
    ensures d[|d| - 1] !in d[..|d| - 1]
  {
  }

  lemma {:induction false} WithoutNone(d: seq<Lane>, x: Lane)
    requires x !in d
    ensures Without(d, x) == d
  {
    hide Without, Distinct;
    if d == [] {
      WithoutNothing(x);
    } else {
      WithoutStep(d, x);
      WithoutNone(d[..|d| - 1], x);
      assert d == d[..|d| - 1] + [d[|d| - 1]];
    }
  }

  /** Undocking takes out exactly the lane, unless it is not docked or the only dock. */
  lemma UndockTakesOne(d: seq<Lane>, x: Lane)
    requires Distinct(d)
    ensures var i := IndexOf(d, x);
            Undock(d, x) == if |d| <= 1 || i < 0 then d else d[..i] + d[i + 1..]
  {
    var i := IndexOf(d, x);
    if i < 0 { WithoutNone(d, x); } else { WithoutClosesUp(d, i); }
  }

  /** What the drop puts where `x` was. */
  function Swapped(x: Lane, dragged: Lane, onto: Lane): Lane {
    if x == onto then dragged else if x == dragged then onto else x
  }

  /**
   * Within capacity a drop exchanges the two lanes, or puts a lane that was not docked in the place
   * of the dock it was dropped on; every other dock keeps its position. With no such dock nothing
   * happens, and dropping two docked lanes on each other twice changes nothing.
   */
  lemma DropExchanges(d: seq<Lane>, dragged: Lane, onto: Lane, max: nat, focus: Option<Lane>)
    requires Distinct(d) && 1 <= max && |d| <= max
    ensures var r := Drop(d, dragged, onto, max, focus);
            && |r| == |d|
            && (forall k :: 0 <= k < |d| ==> r[k] == if onto in d then Swapped(d[k], dragged, onto) else d[k])
            && (dragged in d ==> Drop(r, dragged, onto, max, focus) == d)
  {
    DropOnce(d, dragged, onto, max, focus);
    var r := Drop(d, dragged, onto, max, focus);
    if dragged in d && onto in d {
      assert r[IndexOf(d, dragged)] == onto;
      DropOnce(r, dragged, onto, max, focus);
      assert Drop(r, dragged, onto, max, focus) == d;
    }
  }

  lemma DropOnce(d: seq<Lane>, dragged: Lane, onto: Lane, max: nat, focus: Option<Lane>)
    requires Distinct(d) && 1 <= max && |d| <= max
    ensures var r := Drop(d, dragged, onto, max, focus);
            && Distinct(r) && |r| == |d|
            && (forall k :: 0 <= k < |d| ==> r[k] == if onto in d then Swapped(d[k], dragged, onto) else d[k])
  {
    var to := IndexOf(d, onto);
    if dragged != onto && to >= 0 {
      hide Unique;
      var next := Exchanged(d, dragged, onto);
      UniqueOfDistinct(next);
    }
  }

  /** The list the drop makes before it is clamped. */
  lemma Exchanged(d: seq<Lane>, dragged: Lane, onto: Lane) returns (next: seq<Lane>)
    requires Distinct(d) && dragged != onto && onto in d
    ensures var from, to := IndexOf(d, dragged), IndexOf(d, onto);
            to >= 0 && next == if from >= 0 then d[from := onto][to := dragged] else d[to := dragged]
    ensures |next| == |d| && Distinct(next)
    ensures forall k :: 0 <= k < |d| ==> next[k] == Swapped(d[k], dragged, onto)
  {
    var from, to := IndexOf(d, dragged), IndexOf(d, onto);
    next := if from >= 0 then d[from := onto][to := dragged] else d[to := dragged];
    forall k | 0 <= k < |d|
      ensures next[k] == Swapped(d[k], dragged, onto)
    {
      assert k != to ==> d[k] != d[to];
      assert from >= 0 && k != from ==> d[k] != d[from];
      assert from < 0 ==> d[k] != dragged;
    }
  }

  /** Distinctness is needed: with the focus docked twice and nothing else, a peel empties the stage. */
  lemma PeelNeedsDistinct(f: Lane)
    ensures Peel([f, f], Some(f)) == []
  {
  }

  /**
   * Opening a lane beside the focus, if there is one, shows it exactly when the docks, without it
   * and with the focus, fit the capacity; the focus stays, and at most one dock is given up.
   */
  lemma BesideShowsTarget(d: seq<Lane>, target: Lane, focus: Option<Lane>, max: nat)
    requires Distinct(d) && Some(target) != focus && max >= 2
    ensures var r, base := Beside(d, target, focus, max), Base(d, target, focus);
            && (focus.Some? ==> focus.value in r) && |r| <= max
            && (target in r <==> |base| <= max)
            && (|base| <= max ==> r == if |base| < max then base + [target] else base[RightmostOther(base, focus) := target])
  {
    hide Unique, Without, Clamped, RightmostOther;
    var base := Base(d, target, focus);
    assert target !in base && (focus.Some? ==> focus.value in base) by { BaseHolds(d, target, focus); }
    if |base| < max {
      AppendShows(base, target, focus, max);
    } else {
      ReplaceShows(base, target, focus, max);
    }
  }

  lemma BaseHolds(d: seq<Lane>, target: Lane, focus: Option<Lane>)
    requires Some(target) != focus
    ensures target !in Base(d, target, focus) && (focus.Some? ==> focus.value in Base(d, target, focus))
  {
    hide Without, Distinct;
    var rest := Without(d, target);
    if focus.Some? && focus.value !in rest { assert ([focus.value] + rest)[0] == focus.value; }
  }

  lemma AppendShows(base: seq<Lane>, target: Lane, focus: Option<Lane>, max: nat)
    requires Distinct(base) && target !in base && |base| < max
    ensures Clamped(base + [target], max, focus) == base + [target]
  {
    hide Unique;
    UniqueOfDistinct(base + [target]);
  }

  lemma ReplaceShows(base: seq<Lane>, target: Lane, focus: Option<Lane>, max: nat)
    requires Distinct(base) && target !in base && Some(target) != focus && |base| >= max >= 2
    requires focus.Some? ==> focus.value in base
    ensures var r := Clamped(base[RightmostOther(base, focus) := target], max, focus);
            && (focus.Some? ==> focus.value in r) && |r| == max && (target in r <==> |base| == max)
            && (|base| == max ==> r == base[RightmostOther(base, focus) := target])
  {
    hide Unique, Without, RightmostOther;
    var at := RightmostOther(base, focus);
    var next := base[at := target];
    Replaced(base, target, focus);
    UniqueOfDistinct(next);
    if |base| == max {
      assert next[at] == target;
    } else if focus.Some? {
      LastIsCut(next, at, focus.value, max);
    } else {
      assert next[|next| - 1] == target && target !in next[..max];
    }
  }

  /** The rightmost unfocused dock gives way: the docks stay distinct and the focus stays. */
  lemma Replaced(base: seq<Lane>, target: Lane, focus: Option<Lane>)
    requires Distinct(base) && target !in base && Some(target) != focus && |base| >= 2
    requires focus.Some? ==> focus.value in base
    ensures var at := RightmostOther(base, focus);
            var next := base[at := target];
            && Distinct(next) && next[at] == target && (focus.Some? ==> focus.value in next)
            && (forall k :: at < k < |base| ==> Some(next[k]) == focus)
            && (focus.None? ==> at == |base| - 1)
  {
    var at := RightmostOther(base, focus);
    assert base[0] != base[1];
    assert Some(base[0]) != focus || Some(base[1]) != focus;
    if focus.Some? {
      var f :| 0 <= f < |base| && base[f] == focus.value;
      assert base[at := target][f] == focus.value;
    }
  }

  /** With the focus moved to the front, the rightmost other lane is last and falls off a full stage. */
  lemma LastIsCut(d: seq<Lane>, at: nat, focus: Lane, max: nat)
    requires Distinct(d) && at < |d| && d[at] != focus && focus in d && |d| > max >= 2
    requires forall k :: at < k < |d| ==> d[k] == focus
    ensures var r := Cut([focus] + Without(d, focus), max);
            |r| == max && focus in r && d[at] !in r
  {
    var rest := Without(d, focus);
    LastWithout(d, at, focus);
    var all := [focus] + rest;
    assert all[|all| - 1] == d[at];
    assert Distinct(all);
    assert all[..max][0] == focus;
  }

  lemma {:induction false} LastWithout(d: seq<Lane>, at: nat, focus: Lane)
    requires Distinct(d) && at < |d| && d[at] != focus && forall k :: at < k < |d| ==> d[k] == focus
    ensures Without(d, focus) != [] && Without(d, focus)[|Without(d, focus)| - 1] == d[at]
  {
  }
}
