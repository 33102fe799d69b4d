/**
 * Lane promotion: opening or focusing a lane asks the bridge to load it, one promotion after the
 * other, while the desktop shows which lane is pending, blocked or in scope. Each request takes
 * the next number; the continuation of a request checks that number before it writes anything.
 * The bridge's scope is also written by turn starts, by creating, forking, archiving and removing
 * lanes and by computer runs, and the desktop's scope by status refreshes that carry what the
 * bridge said when they asked. The actions are the pieces of code between two awaits, in any order
 * the delays allow.
 */
module LaneScope {

  import opened Wrappers

  type Lane = nat

  /** One number of the request counter: a promotion, or closing the last tab. */
  datatype Request =
    | Promote(lane: Lane, archived: bool, open: bool)
    | CloseLast

  /**
   * Where a promotion stands: in the chain, at the bridge, settled but not resumed, reading the
   * transcript, reading the subagents (both only when a tab is opened), about to run its final
   * block, or over. `loaded` is whether the bridge call succeeded, `committed` whether the
   * request got as far as writing the desktop's own scope, `failed` whether anything was thrown.
   */
  datatype Phase =
    | Waiting
    | Running
    | Settled(loaded: bool)
    | Hydrating
    | Listing
    | Ending(loaded: bool, committed: bool, failed: bool)
    | Over(loaded: bool, committed: bool, failed: bool)

  /** A value the bridge's scope was given, by a promotion that loaded or by something else. */
  datatype Write = Write(scope: Option<Lane>, load: bool)

  /** What a status refresh learnt from the bridge, and which write of the bridge's scope that was. */
  datatype Reading = Reading(scope: Option<Lane>, write: nat)

  /**
   * `scope` is the active lane of the desktop's status, once it has a status. `statusRequest` and
   * `readings` belong to status refreshes. The last six fields are history: the calls in order,
   * every value the bridge's scope has had, which of them the last load wrote, which of them the
   * desktop's scope was taken from, which request last committed to the desktop's scope, and the
   * statuses applied since.
   */
  datatype State = State(
    requests: seq<Request>,
    phases: seq<Phase>,
    bridge: Option<Lane>,
    pending: Option<Lane>,
    blocked: Option<Lane>,
    scope: Option<Option<Lane>>,
    statusRequest: nat,
    readings: map<nat, Option<Reading>>,
    calls: seq<nat>,
    writes: seq<Write>,
    lastLoad: nat,
    seen: nat,
    committer: Option<nat>,
    applied: seq<Reading>)

  datatype Action =
    | Ask(request: Request)
    | Run(i: nat)
    | Settle(i: nat, ok: bool)
    | Resume(i: nat)
    | Hydrated(i: nat, ok: bool)
    | Listed(i: nat, ok: bool)
    | Finish(i: nat)
    | OtherWrite(lane: Option<Lane>)
    | AskStatus
    | ReadStatus(status: nat)
    | ApplyStatus(status: nat)

  ghost predicate Init(s: State) {
    && s == State([], [], s.bridge, None, None, None, 0, map[], [], [Write(s.bridge, false)], 0, 0, None, [])
  }

  predicate PastBridge(p: Phase) {
    !p.Waiting? && !p.Running?
  }

  predicate LoadedOk(p: Phase) {
    (p.Settled? && p.loaded) || p.Hydrating? || p.Listing? || ((p.Ending? || p.Over?) && p.loaded)
  }

  predicate Committed(p: Phase) {
    p.Listing? || ((p.Ending? || p.Over?) && p.committed)
  }

  predicate Newest(s: State, i: nat) {
    i + 1 == |s.requests|
  }

  predicate At(s: State, i: nat) {
    i < |s.requests| && i < |s.phases| && s.requests[i].Promote?
  }

  predicate Enabled(s: State, a: Action) {
    match a
    case Ask(_) => true
    case Run(i) => At(s, i) && s.phases[i].Waiting? && forall j :: 0 <= j < i ==> PastBridge(s.phases[j])
    case Settle(i, _) => At(s, i) && s.phases[i].Running?
    case Resume(i) => At(s, i) && s.phases[i].Settled?
    case Hydrated(i, _) => At(s, i) && s.phases[i].Hydrating?
    case Listed(i, _) => At(s, i) && s.phases[i].Listing?
    case Finish(i) => At(s, i) && s.phases[i].Ending?
    case OtherWrite(_) => true
    case AskStatus => true
    case ReadStatus(status) => status in s.readings && s.readings[status].None?
    case ApplyStatus(status) => status in s.readings && s.readings[status].Some?
  }

  function Go(s: State, i: nat, p: Phase): State
    requires i < |s.phases|
  {
    s.(phases := s.phases[i := p])
  }

  /** The catch block: only the newest request reports that its lane is blocked. */
  function Failed(s: State, i: nat, loaded: bool, committed: bool): State
    requires At(s, i)
  {
    Go(s, i, Ending(loaded, committed, true)).(blocked := if Newest(s, i) then Some(s.requests[i].lane) else s.blocked)
  }

  /** The newest request makes its live lane the desktop's scope, if the desktop has a status at all. */
  function Commit(s: State, i: nat): State
    requires At(s, i)
  {
    if s.requests[i].archived || s.scope.None? then s
    else s.(scope := Some(Some(s.requests[i].lane)), seen := s.lastLoad, committer := Some(i), applied := [])
  }

  function Written(s: State, scope: Option<Lane>, load: bool): State {
    s.(bridge := scope, writes := s.writes + [Write(scope, load)])
  }

  function NextResume(s: State, i: nat): State
    requires Enabled(s, Resume(i))
  {
    if !s.phases[i].loaded then Failed(s, i, false, false)
    else if !Newest(s, i) then Go(s, i, Ending(true, false, false))
    else if s.requests[i].open then Go(s, i, Hydrating).(blocked := None)
    else Go(Commit(s, i), i, Ending(true, true, false)).(blocked := None)
  }

  function Next(s: State, a: Action): State
    requires Enabled(s, a) && |s.writes| > 0
  {
    match a
    case Ask(request) =>
      s.(requests := s.requests + [request],
         phases := s.phases + [if request.Promote? then Waiting else Over(false, false, false)],
         pending := if request.Promote? then Some(request.lane) else None,
         blocked := None)
    case Run(i) => Go(s, i, Running).(calls := s.calls + [i])
    case Settle(i, ok) =>
      var settled := Go(s, i, Settled(ok));
      if ok && !s.requests[i].archived
      then Written(settled, Some(s.requests[i].lane), true).(lastLoad := |s.writes|)
      else settled
    case Resume(i) => NextResume(s, i)
    case Hydrated(i, ok) =>
      if !ok then Failed(s, i, true, false)
      else if !Newest(s, i) then Go(s, i, Ending(true, false, false))
      else Go(Commit(s, i), i, Listing)
    case Listed(i, ok) => if ok then Go(s, i, Ending(true, true, false)) else Failed(s, i, true, true)
    case Finish(i) =>
      Go(s, i, Over(s.phases[i].loaded, s.phases[i].committed, s.phases[i].failed)).(pending := if Newest(s, i) then None else s.pending)
    case OtherWrite(lane) => Written(s, lane, false)
    case AskStatus => s.(statusRequest := s.statusRequest + 1, readings := s.readings[s.statusRequest + 1 := None])
    case ReadStatus(status) => s.(readings := s.readings[status := Some(Reading(s.bridge, |s.writes| - 1))])
    case ApplyStatus(status) =>
      var reading := s.readings[status].value;
      var s1 := s.(readings := s.readings - {status});
      if status == s.statusRequest
      then s1.(scope := Some(reading.scope), seen := reading.write, applied := s.applied + [reading])
      else s1
  }

  ghost predicate Step(s: State, s': State) {
    |s.writes| > 0 && exists a :: Enabled(s, a) && s' == Next(s, a)
  }

  ghost predicate IsRun(states: seq<State>) {
    && |states| > 0
    && Init(states[0])
    && forall i :: 0 <= i < |states| - 1 ==> Step(states[i], states[i + 1])
  }

  // ---------------------------------------------------------------- invariant

  /** The lane of the last live request, in request order, whose promotion succeeded; `start` if there is none. */
  function LastLoaded(start: Option<Lane>, requests: seq<Request>, phases: seq<Phase>, n: nat): Option<Lane>
    requires n <= |requests| == |phases|
  {
    if n == 0 then start
    else if requests[n - 1].Promote? && !requests[n - 1].archived && LoadedOk(phases[n - 1])
    then Some(requests[n - 1].lane)
    else LastLoaded(start, requests, phases, n - 1)
  }

  /** The lane the newest request is still working on. */
  function Unsettled(s: State): Option<Lane>
    requires |s.requests| == |s.phases|
  {
    var n := |s.requests|;
    if n > 0 && s.requests[n - 1].Promote? && !s.phases[n - 1].Over? then Some(s.requests[n - 1].lane) else None
  }

  predicate InOrder(s: State) {
    && |s.requests| == |s.phases|
    && (forall i :: 0 <= i < |s.requests| && s.requests[i].CloseLast? ==> s.phases[i] == Over(false, false, false))
    && (forall i, j :: 0 <= i < j < |s.requests| && s.requests[j].Promote? && !s.phases[j].Waiting? ==> PastBridge(s.phases[i]))
  }

  predicate GoodCalls(s: State) {
    && (forall k :: 0 <= k < |s.calls| ==> At(s, s.calls[k]) && !s.phases[s.calls[k]].Waiting?)
    && (forall k, l :: 0 <= k < l < |s.calls| ==> s.calls[k] < s.calls[l])
  }

  /** The bridge's scope is the last write; up to the last load the writes end in the last loaded lane. */
  predicate GoodBridge(s: State) {
    && |s.requests| == |s.phases| && s.lastLoad < |s.writes|
    && s.bridge == s.writes[|s.writes| - 1].scope
    && (forall k :: s.lastLoad < k < |s.writes| ==> !s.writes[k].load)
    && s.writes[s.lastLoad].scope == LastLoaded(s.writes[0].scope, s.requests, s.phases, |s.requests|)
  }

  /** The desktop's scope, and every reading under way, is a value the bridge's scope has had. */
  predicate GoodDesktop(s: State) {
    && s.seen < |s.writes|
    && (s.scope.Some? ==> s.scope.value == s.writes[s.seen].scope)
    && (forall r :: r in s.readings && s.readings[r].Some? ==>
          s.readings[r].value.write < |s.writes| && s.readings[r].value.scope == s.writes[s.readings[r].value.write].scope)
  }

  /** After a commit the desktop's scope is the committed lane, or the last status applied since. */
  predicate GoodCommit(s: State) {
    s.committer.Some? ==>
      && At(s, s.committer.value) && !s.requests[s.committer.value].archived && LoadedOk(s.phases[s.committer.value])
      && s.scope.Some?
      && s.scope.value == (if s.applied == [] then Some(s.requests[s.committer.value].lane) else s.applied[|s.applied| - 1].scope)
      && (s.applied != [] ==> s.seen == s.applied[|s.applied| - 1].write)
  }

  lemma ResumeKeepsCommit(s: State, i: nat)
    requires GoodCommit(s) && Enabled(s, Resume(i))
    ensures GoodCommit(NextResume(s, i))
  {
  }

  lemma HydrateKeepsCommit(s: State, i: nat, ok: bool)
    requires GoodCommit(s) && Enabled(s, Hydrated(i, ok)) && |s.writes| > 0
    ensures GoodCommit(Next(s, Hydrated(i, ok)))
  {
    hide NextResume;
  }

  lemma EndKeepsCommit(s: State, a: Action)
    requires GoodCommit(s) && Enabled(s, a) && |s.writes| > 0 && (a.Listed? || a.Finish? || a.Run? || a.Settle?)
    ensures GoodCommit(Next(s, a))
  {
  }

  lemma StepKeepsCommit(s: State, a: Action)
    requires GoodCommit(s) && Enabled(s, a) && |s.writes| > 0
    ensures GoodCommit(Next(s, a))
  {
    hide NextResume, Failed, Commit;
    if a.Resume? { ResumeKeepsCommit(s, a.i); }
    else if a.Hydrated? { HydrateKeepsCommit(s, a.i, a.ok); }
    else if a.Listed? || a.Finish? || a.Run? || a.Settle? { EndKeepsCommit(s, a); }
  }

  lemma {:induction false} RunsKeepCommit(states: seq<State>, n: nat)
    requires IsRun(states) && n < |states|
    ensures GoodCommit(states[n])
  {
    if n > 0 {
      hide GoodCommit, Next, Enabled;
      RunsKeepCommit(states, n - 1);
      assert Step(states[n - 1], states[n - 1 + 1]);
      var a :| Enabled(states[n - 1], a) && states[n] == Next(states[n - 1], a);
      StepKeepsCommit(states[n - 1], a);
    }
  }

  ghost predicate GoodRequests(s: State) {
    && InOrder(s)
    && GoodCalls(s)
    && s.pending == Unsettled(s)
    && (forall i: nat :: At(s, i) && Committed(s.phases[i]) ==> LoadedOk(s.phases[i]))
  }

  ghost predicate Good(s: State) {
    GoodRequests(s) && GoodBridge(s) && GoodDesktop(s)
  }

  // -------------------------------------------------------------- preservation

  /** Only which promotions loaded matters to the last loaded lane. */
  lemma {:induction false} SameLoaded(start: Option<Lane>, requests: seq<Request>, p: seq<Phase>, q: seq<Phase>, n: nat)
    requires n <= |requests| == |p| == |q|
    requires forall i :: 0 <= i < n && requests[i].Promote? ==> LoadedOk(p[i]) == LoadedOk(q[i])
    ensures LastLoaded(start, requests, p, n) == LastLoaded(start, requests, q, n)
  {
    if n > 0 { SameLoaded(start, requests, p, q, n - 1); }
  }

  /** Requests that have not loaded do not matter. */
  lemma {:induction false} NoneLater(start: Option<Lane>, requests: seq<Request>, p: seq<Phase>, i: nat, n: nat)
    requires i <= n <= |requests| == |p|
    requires forall j :: i <= j < n && requests[j].Promote? ==> !LoadedOk(p[j])
    ensures LastLoaded(start, requests, p, n) == LastLoaded(start, requests, p, i)
  {
    if i < n { NoneLater(start, requests, p, i, n - 1); }
  }

  lemma {:induction false} Longer(start: Option<Lane>, r: seq<Request>, p: seq<Phase>, x: Request, y: Phase, n: nat)
    requires n <= |r| == |p|
    ensures LastLoaded(start, r + [x], p + [y], n) == LastLoaded(start, r, p, n)
  {
    if n > 0 { Longer(start, r, p, x, y, n - 1); }
  }

  lemma AskKeepsGood(s: State, request: Request)
    requires Good(s)
    ensures Good(Next(s, Ask(request)))
  {
    var s' := Next(s, Ask(request));
    Longer(s.writes[0].scope, s.requests, s.phases, request, s'.phases[|s.phases|], |s.requests|);
    assert s'.requests[|s.requests|] == request;
  }

  /** All later requests are still waiting, so a promotion that settles is the last that loaded. */
  lemma SettledIsLast(s: State, i: nat, ok: bool)
    requires GoodRequests(s) && GoodBridge(s) && Enabled(s, Settle(i, ok))
    ensures GoodBridge(Next(s, Settle(i, ok)))
  {
    hide GoodCalls;
    var s', n, start := Next(s, Settle(i, ok)), |s.requests|, s.writes[0].scope;
    SameLoaded(start, s.requests, s.phases, s'.phases, i);
    NoneLater(start, s.requests, s.phases, i + 1, n);
    NoneLater(start, s.requests, s'.phases, i + 1, n);
  }

  lemma SettleKeepsRequests(s: State, i: nat, ok: bool)
    requires GoodRequests(s) && Enabled(s, Settle(i, ok)) && |s.writes| > 0
    ensures GoodRequests(Next(s, Settle(i, ok)))
  {
  }

  /** What the desktop was told stays what the bridge once said. */
  lemma WritesGrow(s: State, s': State)
    requires GoodDesktop(s) && s.writes <= s'.writes
    requires s'.seen == s.seen && s'.scope == s.scope && s'.readings == s.readings
    ensures GoodDesktop(s')
  {
  }

  lemma SettleKeepsGood(s: State, i: nat, ok: bool)
    requires Good(s) && Enabled(s, Settle(i, ok))
    ensures Good(Next(s, Settle(i, ok)))
  {
    hide GoodRequests, GoodBridge, GoodDesktop;
    assert |s.writes| > 0 by { SomeWrite(s); }
    SettleKeepsRequests(s, i, ok);
    SettledIsLast(s, i, ok);
    WritesGrow(s, Next(s, Settle(i, ok)));
  }

  lemma SomeWrite(s: State)
    requires GoodBridge(s)
    ensures |s.writes| > 0
  {
  }

  lemma CallsBefore(s: State, i: nat)
    requires Good(s) && Enabled(s, Run(i))
    ensures forall k :: 0 <= k < |s.calls| ==> s.calls[k] < i
  {
  }

  lemma RunKeepsGood(s: State, i: nat)
    requires Good(s) && Enabled(s, Run(i))
    ensures Good(Next(s, Run(i)))
  {
    hide LastLoaded;
    var s' := Next(s, Run(i));
    SameLoaded(s.writes[0].scope, s.requests, s.phases, s'.phases, |s.requests|);
    CallsBefore(s, i);
  }

  /** A continuation moves its own request past the bridge and keeps whether it loaded. */
  lemma MoveKeepsGood(s: State, s': State, i: nat, p: Phase)
    requires Good(s) && At(s, i) && PastBridge(s.phases[i]) && !s.phases[i].Over?
    requires PastBridge(p) && LoadedOk(p) == LoadedOk(s.phases[i]) && (Committed(p) ==> LoadedOk(p))
    requires s' == s.(phases := s.phases[i := p], pending := s'.pending, blocked := s'.blocked, scope := s'.scope,
                      seen := s'.seen, committer := s'.committer, applied := s'.applied)
    requires s'.pending == if Newest(s, i) && p.Over? then None else s.pending
    requires GoodDesktop(s')
    ensures Good(s')
  {
    hide LastLoaded, GoodDesktop;
    SameLoaded(s.writes[0].scope, s.requests, s.phases, s'.phases, |s.requests|);
  }

  /** The newest request commits the lane the last load wrote. */
  lemma CommitIsLastLoad(s: State, i: nat)
    requires Good(s) && At(s, i) && Newest(s, i) && LoadedOk(s.phases[i]) && !s.requests[i].archived
    ensures s.lastLoad < |s.writes| && s.writes[s.lastLoad].scope == Some(s.requests[i].lane)
  {
  }

  lemma OtherKeepsGood(s: State, a: Action)
    requires Good(s) && Enabled(s, a) && (a.Resume? || a.Hydrated? || a.Listed? || a.Finish?)
    ensures Good(Next(s, a))
  {
    hide LastLoaded, InOrder, GoodCalls, GoodBridge, GoodDesktop;
    SomeWrite(s);
    var s' := Next(s, a);
    assert At(s, a.i) && |s'.phases| == |s.phases|;
    assert GoodDesktop(s') by { MoveKeepsDesktop(s, a); }
    MoveKeepsGood(s, s', a.i, s'.phases[a.i]);
  }

  lemma ResumeKeepsDesktop(s: State, i: nat)
    requires Good(s) && Enabled(s, Resume(i))
    ensures GoodDesktop(NextResume(s, i))
  {
    hide LastLoaded, GoodRequests, GoodBridge;
    if Newest(s, i) && LoadedOk(s.phases[i]) && !s.requests[i].archived { CommitIsLastLoad(s, i); }
  }

  lemma MoveKeepsDesktop(s: State, a: Action)
    requires Good(s) && Enabled(s, a) && (a.Resume? || a.Hydrated? || a.Listed? || a.Finish?)
    ensures |s.writes| > 0 && GoodDesktop(Next(s, a))
  {
    hide LastLoaded, GoodRequests, GoodBridge, NextResume;
    SomeWrite(s);
    if a.Resume? { ResumeKeepsDesktop(s, a.i); }
    else if a.Hydrated? && Newest(s, a.i) && !s.requests[a.i].archived { CommitIsLastLoad(s, a.i); }
  }

  /** Writes of others and status refreshes touch no request. */
  lemma OutsideKeepsGood(s: State, a: Action)
    requires Good(s) && Enabled(s, a) && (a.OtherWrite? || a.AskStatus? || a.ReadStatus? || a.ApplyStatus?)
    ensures Good(Next(s, a))
  {
    hide GoodRequests, GoodBridge, GoodDesktop;
    SomeWrite(s);
    var s' := Next(s, a);
    SameRequests(s, s');
    if a.OtherWrite? {
      OtherWriteKeepsBridge(s, a.lane);
      WritesGrow(s, s');
    } else {
      SameBridge(s, s');
      StatusKeepsDesktop(s, a);
    }
  }

  lemma OtherWriteKeepsBridge(s: State, lane: Option<Lane>)
    requires GoodBridge(s)
    ensures GoodBridge(Written(s, lane, false))
  {
    hide LastLoaded;
  }

  lemma SameBridge(s: State, s': State)
    requires GoodBridge(s) && s'.requests == s.requests && s'.phases == s.phases
    requires s'.writes == s.writes && s'.lastLoad == s.lastLoad && s'.bridge == s.bridge
    ensures GoodBridge(s')
  {
    hide LastLoaded;
  }

  lemma StatusKeepsDesktop(s: State, a: Action)
    requires GoodBridge(s) && GoodDesktop(s) && Enabled(s, a) && (a.AskStatus? || a.ReadStatus? || a.ApplyStatus?)
    ensures GoodDesktop(Next(s, a))
  {
    hide LastLoaded;
  }

  lemma SameRequests(s: State, s': State)
    requires GoodRequests(s)
    requires s'.requests == s.requests && s'.phases == s.phases && s'.calls == s.calls && s'.pending == s.pending
    ensures GoodRequests(s')
  {
    assert forall i: nat :: At(s', i) == At(s, i);
  }

  lemma {:induction false} RunsAreGood(states: seq<State>, n: nat)
    requires IsRun(states) && n < |states|
    ensures Good(states[n])
  {
    if n > 0 {
      hide Good, Next, Enabled;
      RunsAreGood(states, n - 1);
      assert Step(states[n - 1], states[n - 1 + 1]);
      var a :| Enabled(states[n - 1], a) && states[n] == Next(states[n - 1], a);
      match a
      case Ask(request) => AskKeepsGood(states[n - 1], request);
      case Settle(i, ok) => SettleKeepsGood(states[n - 1], i, ok);
      case Run(i) => RunKeepsGood(states[n - 1], i);
      case OtherWrite(_) => OutsideKeepsGood(states[n - 1], a);
      case AskStatus => OutsideKeepsGood(states[n - 1], a);
      case ReadStatus(_) => OutsideKeepsGood(states[n - 1], a);
      case ApplyStatus(_) => OutsideKeepsGood(states[n - 1], a);
      case _ => OtherKeepsGood(states[n - 1], a);
    }
  }

  // ------------------------------------------------------------- main results

  lemma StepCalls(s: State, a: Action, i: nat)
    requires Enabled(s, a) && |s.writes| > 0 && |s.requests| == |s.phases|
    requires At(s, i) && !s.phases[i].Waiting? ==> i in s.calls
    ensures var s' := Next(s, a);
            |s'.requests| == |s'.phases| && (At(s', i) && !s'.phases[i].Waiting? ==> i in s'.calls)
  {
    if a.Run? { assert (s.calls + [a.i])[|s.calls|] == a.i; }
  }

  /** Every promotion that is no longer waiting was handed to the bridge; with the order below, exactly once. */
  lemma {:induction false} EveryPromotionIsCalled(states: seq<State>, n: nat, i: nat)
    requires IsRun(states) && n < |states|
    ensures |states[n].requests| == |states[n].phases|
    ensures At(states[n], i) && !states[n].phases[i].Waiting? ==> i in states[n].calls
  {
    if n > 0 {
      hide Next, Enabled;
      EveryPromotionIsCalled(states, n - 1, i);
      assert Step(states[n - 1], states[n - 1 + 1]);
      var a :| Enabled(states[n - 1], a) && states[n] == Next(states[n - 1], a);
      StepCalls(states[n - 1], a, i);
    }
  }

  /** Promotions reach the bridge one at a time and in request order. */
  lemma OneAtATime(states: seq<State>, n: nat, i: nat, j: nat)
    requires IsRun(states) && n < |states|
    ensures At(states[n], i) && At(states[n], j) && states[n].phases[i].Running? && states[n].phases[j].Running? ==> i == j
    ensures i < j < |states[n].calls| ==> states[n].calls[i] < states[n].calls[j]
  {
    RunsAreGood(states, n);
  }

  /** A continuation of a request that is not the newest writes none of the scope state. */
  lemma OnlyTheNewestWrites(s: State, a: Action)
    requires Good(s) && Enabled(s, a)
    requires a.Run? || a.Settle? || a.Resume? || a.Hydrated? || a.Listed? || a.Finish?
    requires !Newest(s, a.i)
    ensures var s' := Next(s, a);
            s'.pending == s.pending && s'.blocked == s.blocked && s'.scope == s.scope
  {
  }

  /** The pending lane is the newest request's lane exactly while that request is not over, and none otherwise. */
  lemma PendingIsTheNewest(states: seq<State>, n: nat)
    requires IsRun(states) && n < |states|
    ensures |states[n].requests| == |states[n].phases|
    ensures states[n].pending == Unsettled(states[n])
  {
    RunsAreGood(states, n);
  }

  /** The newest request, if it is a live promotion that loaded. */
  function NewestLoaded(s: State): Option<Lane>
    requires |s.requests| == |s.phases|
  {
    var n := |s.requests|;
    if n > 0 && s.requests[n - 1].Promote? && !s.requests[n - 1].archived && LoadedOk(s.phases[n - 1])
    then Some(s.requests[n - 1].lane)
    else None
  }

  /**
   * The bridge's scope is the lane of the last live request, in request order, that loaded (which
   * is the newest request's lane once that loaded), as long as nothing was written after that load;
   * and otherwise whatever something other than a promotion wrote last.
   */
  lemma BridgeFollowsTheNewest(states: seq<State>, n: nat)
    requires IsRun(states) && n < |states|
    ensures var s := states[n];
            && |s.requests| == |s.phases| && s.lastLoad < |s.writes|
            && var last, latest := LastLoaded(s.writes[0].scope, s.requests, s.phases, |s.requests|), s.writes[|s.writes| - 1];
               && (NewestLoaded(s).Some? ==> last == NewestLoaded(s))
               && s.bridge == (if s.lastLoad == |s.writes| - 1 then last else latest.scope)
               && (s.lastLoad < |s.writes| - 1 ==> !latest.load)
  {
    RunsAreGood(states, n);
  }

  /** The desktop's scope is what the bridge's scope was after the write it was taken from. */
  lemma DesktopFollowsTheBridge(states: seq<State>, n: nat)
    requires IsRun(states) && n < |states|
    ensures var s := states[n];
            && s.seen < |s.writes|
            && (s.scope.Some? ==> s.scope.value == s.writes[s.seen].scope)
            && (s.scope.Some? && s.seen == |s.writes| - 1 ==> s.scope.value == s.bridge)
  {
    RunsAreGood(states, n);
  }

  /**
   * The desktop's scope changes only by applying a status, or by the newest live request committing
   * its own lane to a status that is there; then desktop and bridge agree if no other write came
   * after the load.
   */
  lemma ScopeHasTwoWriters(states: seq<State>, n: nat, a: Action)
    requires IsRun(states) && n < |states| && |states[n].writes| > 0 && Enabled(states[n], a)
    ensures var s, s' := states[n], Next(states[n], a);
            && (s'.scope != s.scope || s'.seen != s.seen ==>
                  || a.ApplyStatus?
                  || ((a.Resume? || a.Hydrated?) && Newest(s, a.i) && !s.requests[a.i].archived && s.scope.Some?
                      && s'.scope == Some(Some(s.requests[a.i].lane)) && s'.seen == s.lastLoad
                      && (s.lastLoad == |s.writes| - 1 ==> s'.scope == Some(s'.bridge))))
  {
    hide LastLoaded, GoodRequests, GoodDesktop;
    RunsAreGood(states, n);
    var s := states[n];
    if (a.Resume? || a.Hydrated?) && Newest(s, a.i) && LoadedOk(s.phases[a.i]) && !s.requests[a.i].archived {
      CommitIsLastLoad(s, a.i);
    }
  }

  /**
   * A request reaches the point of writing the desktop's scope exactly when it is the newest and its
   * lane loaded (and, for a tab being opened, its transcript was read). A live one then makes its
   * lane the desktop's scope, if the desktop has a status.
   */
  lemma CommitNamesTheLane(s: State, a: Action)
    requires Enabled(s, a) && |s.writes| > 0 && (a.Resume? || a.Hydrated?)
    ensures var s', i := Next(s, a), a.i;
            && (Committed(s'.phases[i]) <==>
                  Newest(s, i) && if a.Resume? then s.phases[i].loaded && !s.requests[i].open else a.ok)
            && (if Committed(s'.phases[i]) && !s.requests[i].archived && s.scope.Some?
                then s'.scope == Some(Some(s.requests[i].lane)) && s'.committer == Some(i) && s'.applied == []
                else s'.scope == s.scope && s'.committer == s.committer && s'.applied == s.applied)
  {
  }

  lemma StepCommits(s: State, a: Action, i: nat)
    requires Enabled(s, a) && |s.writes| > 0 && At(s, i) && !s.requests[i].archived && s.scope.Some?
    ensures var s' := Next(s, a);
            && At(s', i) && s'.requests[i] == s.requests[i] && s'.scope.Some?
            && (Newest(s', i) ==> Newest(s, i))
            && (Newest(s', i) && Committed(s'.phases[i]) && (Committed(s.phases[i]) ==> s.committer == Some(i)) ==>
                  s'.committer == Some(i))
  {
  }

  /**
   * In every run: a live request that had not committed when the desktop had a status, and that is
   * the newest and has committed now, is the one the desktop's scope was last committed by.
   */
  lemma {:induction false} CommitterIsTheNewest(states: seq<State>, m: nat, n: nat, i: nat)
    requires IsRun(states) && m <= n < |states|
    requires states[m].scope.Some? && At(states[m], i) && !Committed(states[m].phases[i]) && !states[m].requests[i].archived
    ensures At(states[n], i) && states[n].requests[i] == states[m].requests[i] && states[n].scope.Some?
    ensures Newest(states[n], i) && Committed(states[n].phases[i]) ==> states[n].committer == Some(i)
  {
    if m < n {
      hide Next, Enabled, Committed;
      CommitterIsTheNewest(states, m, n - 1, i);
      assert Step(states[n - 1], states[n - 1 + 1]);
      var a :| Enabled(states[n - 1], a) && states[n] == Next(states[n - 1], a);
      StepCommits(states[n - 1], a, i);
    }
  }

  /** The lane of the newest request, if that request threw. */
  function Thrown(s: State): Option<Lane>
    requires |s.requests| == |s.phases|
  {
    var n := |s.requests|;
    if n > 0 && s.requests[n - 1].Promote? && (s.phases[n - 1].Ending? || s.phases[n - 1].Over?) && s.phases[n - 1].failed
    then Some(s.requests[n - 1].lane)
    else None
  }

  /** Something was thrown: the bridge refused, the transcript could not be read, or the subagents not listed. */
  predicate Throws(s: State, a: Action)
    requires Enabled(s, a)
  {
    (a.Resume? && !s.phases[a.i].loaded) || (a.Hydrated? && !a.ok) || (a.Listed? && !a.ok)
  }

  /** A request counts as failed exactly from the step that threw. */
  lemma FailedExactly(s: State, a: Action)
    requires Enabled(s, a) && |s.writes| > 0 && (a.Resume? || a.Hydrated? || a.Listed?)
    ensures var p := Next(s, a).phases[a.i];
            (p.Ending? && p.failed) <==> Throws(s, a)
  {
  }

  predicate BlocksRight(s: State) {
    |s.requests| == |s.phases| && s.blocked == Thrown(s)
  }

  lemma ResumeBlocks(s: State, i: nat)
    requires Enabled(s, Resume(i)) && BlocksRight(s)
    ensures BlocksRight(NextResume(s, i))
  {
  }

  lemma HydratedBlocks(s: State, i: nat, ok: bool)
    requires Enabled(s, Hydrated(i, ok)) && |s.writes| > 0 && BlocksRight(s)
    ensures BlocksRight(Next(s, Hydrated(i, ok)))
  {
    hide NextResume;
  }

  lemma EndBlocks(s: State, a: Action)
    requires Enabled(s, a) && |s.writes| > 0 && BlocksRight(s) && (a.Listed? || a.Finish? || a.Run? || a.Settle?)
    ensures BlocksRight(Next(s, a))
  {
    hide NextResume, Commit;
  }

  lemma StepBlocks(s: State, a: Action)
    requires Enabled(s, a) && |s.writes| > 0 && BlocksRight(s)
    ensures BlocksRight(Next(s, a))
  {
    hide NextResume, Failed, Commit;
    if a.Resume? { ResumeBlocks(s, a.i); }
    else if a.Hydrated? { HydratedBlocks(s, a.i, a.ok); }
    else if a.Listed? || a.Finish? || a.Run? || a.Settle? { EndBlocks(s, a); }
  }

  /** The desktop shows a lane as blocked exactly when the newest request was for that lane and failed. */
  lemma {:induction false} BlockedIsTheNewest(states: seq<State>, n: nat)
    requires IsRun(states) && n < |states|
    ensures |states[n].requests| == |states[n].phases|
    ensures states[n].blocked == Thrown(states[n])
  {
    if n > 0 {
      hide Next, Enabled;
      BlockedIsTheNewest(states, n - 1);
      assert Step(states[n - 1], states[n - 1 + 1]);
      var a :| Enabled(states[n - 1], a) && states[n] == Next(states[n - 1], a);
      StepBlocks(states[n - 1], a);
    }
  }

  /**
   * Once the newest request has committed to the desktop's scope, the desktop names its lane until
   * a status is applied, and then what the last status said. With no other write after the load,
   * desktop and bridge disagree only through a status that was read before the load.
   */
  lemma DesktopNamesTheNewest(states: seq<State>, n: nat)
    requires IsRun(states) && n < |states|
    requires states[n].committer.Some? && Newest(states[n], states[n].committer.value)
    ensures var s, i := states[n], states[n].committer.value;
            && At(s, i) && s.scope.Some? && s.lastLoad < |s.writes|
            && |s.requests| == |s.phases| && NewestLoaded(s) == Some(s.requests[i].lane)
            && var lane := Some(s.requests[i].lane);
               && s.scope.value == (if s.applied == [] then lane else s.applied[|s.applied| - 1].scope)
               && (s.lastLoad == |s.writes| - 1 ==>
                     && s.bridge == lane
                     && (s.scope.value != s.bridge ==> s.applied != [] && s.applied[|s.applied| - 1].write < s.lastLoad))
  {
    hide LastLoaded, GoodCalls;
    RunsAreGood(states, n);
    RunsKeepCommit(states, n);
    BridgeFollowsTheNewest(states, n);
  }

  /**
   * Every status applied since the last commit, and the newest one under way, was read no earlier
   * than those applied before it.
   */
  predicate StatusOrder(s: State) {
    && (forall r :: r in s.readings ==> r <= s.statusRequest)
    && (forall i, j :: 0 <= i < j < |s.applied| ==> s.applied[i].write <= s.applied[j].write)
    && (forall i :: 0 <= i < |s.applied| ==> s.applied[i].write < |s.writes|)
    && (forall i :: 0 <= i < |s.applied| && s.statusRequest in s.readings && s.readings[s.statusRequest].Some? ==>
          s.applied[i].write <= s.readings[s.statusRequest].value.write)
    && (forall r :: r in s.readings && s.readings[r].Some? ==> s.readings[r].value.write < |s.writes|)
  }

  /** Only writes of the bridge and the three steps of a status touch what the order is about. */
  lemma SameStatuses(s: State, s': State)
    requires StatusOrder(s) && s.writes <= s'.writes && s'.readings == s.readings && s'.statusRequest == s.statusRequest
    requires s'.applied == s.applied || s'.applied == []
    ensures StatusOrder(s')
  {
  }

  lemma StatusStepKeepsOrder(s: State, a: Action)
    requires StatusOrder(s) && Enabled(s, a) && |s.writes| > 0 && (a.AskStatus? || a.ReadStatus? || a.ApplyStatus?)
    ensures StatusOrder(Next(s, a))
  {
  }

  lemma StepKeepsStatusOrder(s: State, a: Action)
    requires StatusOrder(s) && Enabled(s, a) && |s.writes| > 0
    ensures StatusOrder(Next(s, a)) && |Next(s, a).writes| > 0
  {
    hide StatusOrder;
    if a.AskStatus? || a.ReadStatus? || a.ApplyStatus? { StatusStepKeepsOrder(s, a); }
    else { SameStatuses(s, Next(s, a)); }
  }

  /** Statuses are never applied out of order: a later one does not say what the bridge's scope was earlier. */
  lemma {:induction false} StatusesApplyInOrder(states: seq<State>, n: nat)
    requires IsRun(states) && n < |states|
    ensures |states[n].writes| > 0 && StatusOrder(states[n])
  {
    if n > 0 {
      hide Next, Enabled, StatusOrder;
      StatusesApplyInOrder(states, n - 1);
      assert Step(states[n - 1], states[n - 1 + 1]);
      var a :| Enabled(states[n - 1], a) && states[n] == Next(states[n - 1], a);
      StepKeepsStatusOrder(states[n - 1], a);
    }
  }

  /** A status that is asked, read and applied undisturbed makes the desktop's scope the bridge's. */
  lemma StatusCatchesUp(s: State)
    requires |s.writes| > 0 && s.bridge == s.writes[|s.writes| - 1].scope
    ensures var s1, status := Next(s, AskStatus), s.statusRequest + 1;
            && Enabled(s1, ReadStatus(status)) && Enabled(Next(s1, ReadStatus(status)), ApplyStatus(status))
            && var s' := Next(Next(s1, ReadStatus(status)), ApplyStatus(status));
               s'.scope == Some(s.bridge) && s'.seen == |s'.writes| - 1 && s'.bridge == s.bridge
  {
  }

  lemma Extend(states: seq<State>, a: Action) returns (longer: seq<State>)
    requires IsRun(states) && |states[|states| - 1].writes| > 0 && Enabled(states[|states| - 1], a)
    ensures IsRun(longer) && |longer| == |states| + 1
    ensures longer[|states|] == Next(states[|states| - 1], a)
  {
    hide Next, Enabled;
    longer := states + [Next(states[|states| - 1], a)];
    forall i | 0 <= i < |longer| - 1
      ensures Step(longer[i], longer[i + 1])
    {
      if i < |states| - 1 { assert Step(states[i], states[i + 1]); }
    }
  }

  lemma Opening(s: State)
    requires Init(s)
    ensures IsRun([s])
  {
  }

  /** A lane is focused: the run goes on until the bridge has loaded it. */
  lemma FocusLoads(before: seq<State>, lane: Lane) returns (states: seq<State>)
    requires IsRun(before)
    requires var s := before[|before| - 1]; s.requests == [] && s.phases == [] && |s.writes| > 0
    ensures IsRun(states)
    ensures var s, s' := before[|before| - 1], states[|states| - 1];
            && s'.requests == [Promote(lane, false, false)] && s'.phases == [Settled(true)]
            && s'.bridge == Some(lane) && s'.writes == s.writes + [Write(Some(lane), true)] && s'.lastLoad == |s.writes|
            && s'.scope == s.scope && s'.statusRequest == s.statusRequest && s'.readings == s.readings
  {
    hide IsRun;
    states := Extend(before, Ask(Promote(lane, false, false)));
    states := Extend(states, Run(0));
    states := Extend(states, Settle(0, true));
  }

  /** A turn that starts in another lane after the load moves the bridge's scope off the newest lane. */
  lemma OtherWriteMovesBridge(lane: Lane, other: Lane) returns (states: seq<State>)
    ensures IsRun(states)
    ensures var s := states[|states| - 1];
            |s.requests| == |s.phases| && NewestLoaded(s) == Some(lane) && s.bridge == Some(other)
  {
    hide IsRun;
    var s0 := State([], [], None, None, None, None, 0, map[], [], [Write(None, false)], 0, 0, None, []);
    assert IsRun([s0]) by { Opening(s0); }
    states := FocusLoads([s0], lane);
    states := Extend(states, OtherWrite(Some(other)));
  }

  /** A status that names the old lane has been applied. */
  lemma StatusNames(lane: Lane) returns (states: seq<State>)
    ensures IsRun(states)
    ensures var s := states[|states| - 1];
            s.requests == [] && s.phases == [] && |s.writes| > 0 && s.scope == Some(Some(lane))
  {
    hide IsRun;
    var s0 := State([], [], Some(lane), None, None, None, 0, map[], [], [Write(Some(lane), false)], 0, 0, None, []);
    assert IsRun([s0]) by { Opening(s0); }
    states := Extend([s0], AskStatus);
    states := Extend(states, ReadStatus(1));
    states := Extend(states, ApplyStatus(1));
  }

  /** With no other writer, focusing a lane moves desktop and bridge from the old lane to the new one. */
  lemma FocusMovesBoth(lane: Lane, old_: Lane) returns (states: seq<State>)
    ensures IsRun(states)
    ensures var s := states[|states| - 1];
            s.phases == [Over(true, true, false)] && s.bridge == Some(lane) && s.scope == Some(Some(lane)) && s.pending.None?
  {
    hide IsRun;
    states := StatusNames(old_);
    states := FocusLoads(states, lane);
    states := Extend(states, Resume(0));
    states := Extend(states, Finish(0));
  }

  /** Opening a lane in a tab does so too, once its transcript is read. */
  lemma OpenMovesBoth(lane: Lane, old_: Lane) returns (states: seq<State>)
    ensures IsRun(states)
    ensures var s := states[|states| - 1];
            s.phases == [Listing] && s.bridge == Some(lane) && s.scope == Some(Some(lane)) && s.pending == Some(lane)
  {
    hide IsRun;
    states := StatusNames(old_);
    states := Extend(states, Ask(Promote(lane, false, true)));
    states := Extend(states, Run(0));
    states := Extend(states, Settle(0, true));
    states := Extend(states, Resume(0));
    states := Extend(states, Hydrated(0, true));
  }

  /** A status read before the load and applied after the commit takes the desktop's scope back to the old lane. */
  lemma OldStatusHidesLane(lane: Lane, old_: Lane) returns (states: seq<State>)
    ensures IsRun(states)
    ensures var s := states[|states| - 1];
            s.phases == [Ending(true, true, false)] && s.bridge == Some(lane) && s.scope == Some(Some(old_))
  {
    hide IsRun;
    var s0 := State([], [], Some(old_), None, None, None, 0, map[], [], [Write(Some(old_), false)], 0, 0, None, []);
    assert IsRun([s0]) by { Opening(s0); }
    states := Extend([s0], AskStatus);
    states := Extend(states, ReadStatus(1));
    states := FocusLoads(states, lane);
    states := Extend(states, Resume(0));
    states := Extend(states, ApplyStatus(1));
  }
}
