/**
 * Which Computer Runs exist and which native backends stay attached. Starting a simulator run
 * takes the simulator lock, starting a native run takes the platform lock and then the simulator
 * lock, and a one-off observation takes the platform lock only. Runs end at any moment, because
 * pausing, stopping and completing take neither lock.
 */
module ComputerNative {

  import opened Wrappers

  type Session = nat
  type RunId = nat
  type TaskId = nat

  const MAX_LIVE := 32

  /** Which operation created a run. */
  datatype Origin = Simulated | Native | Observed

  datatype Run = Run(owner: Session, origin: Origin, over: bool)

  datatype Pc =
    | SimWait(owner: Session)
    | SimCheck(owner: Session)
    | SimCreate(owner: Session)
    | PlatformWait(owner: Session)
    | NativeWait(owner: Session)
    | NativeCheck(owner: Session)
    | NativeList(owner: Session)
    | NativeRetain(owner: Session, active: set<RunId>)
    | NativeCreate(owner: Session)
    | NativeInsert(owner: Session, created: RunId)
    | NativeAuthorize(owner: Session, created: RunId)
    | NativeRemove(created: RunId)
    | ObserveWait(owner: Session)
    | ObserveCreate(owner: Session)
    | ObserveClose(created: RunId)

  predicate Waits(pc: Pc) {
    pc.SimWait? || pc.PlatformWait? || pc.ObserveWait?
  }

  predicate HoldsSimulator(pc: Pc) {
    !Waits(pc) && !pc.NativeWait? && !pc.ObserveCreate? && !pc.ObserveClose?
  }

  predicate HoldsPlatform(pc: Pc) {
    !Waits(pc) && !pc.SimCheck? && !pc.SimCreate?
  }

  /** `services` is `native_services`; `started` is every native run whose start returned success. */
  datatype State = State(
    simulator: Option<TaskId>,
    platform: Option<TaskId>,
    tasks: map<TaskId, Pc>,
    runs: map<RunId, Run>,
    services: set<RunId>,
    started: set<RunId>)

  /** `ok` is whether the step's own effect (binding, creating, authorizing) succeeds. */
  datatype Action =
    | Begin(task: TaskId, first: Pc)
    | Advance(task: TaskId, runId: RunId, ok: bool)
    | End(runId: RunId)

  ghost predicate Init(s: State) {
    s == State(None, None, map[], map[], {}, {})
  }

  /** `has_active_desktop_run`. */
  predicate Active(s: State, owner: Session) {
    exists r :: r in s.runs && s.runs[r].owner == owner && !s.runs[r].over
  }

  predicate Enabled(s: State, a: Action) {
    match a
    case Begin(task, first) => task !in s.tasks && Waits(first)
    case End(runId) => runId in s.runs
    case Advance(task, runId, _) =>
      && task in s.tasks
      && (s.tasks[task].SimWait? || s.tasks[task].NativeWait? ==> s.simulator.None?)
      && (s.tasks[task].PlatformWait? || s.tasks[task].ObserveWait? ==> s.platform.None?)
      && (s.tasks[task].SimCreate? || s.tasks[task].NativeCreate? || s.tasks[task].ObserveCreate? ==> runId !in s.runs)
  }

  function Done(s: State, task: TaskId): State {
    s.(tasks := s.tasks - {task},
       simulator := if s.simulator == Some(task) then None else s.simulator,
       platform := if s.platform == Some(task) then None else s.platform)
  }

  function Go(s: State, task: TaskId, pc: Pc): State {
    s.(tasks := s.tasks[task := pc])
  }

  /** A run ends and stays ended; it is `ok` whether the cancel went through. */
  function Ended(s: State, runId: RunId, ok: bool): State {
    if ok && runId in s.runs then s.(runs := s.runs[runId := s.runs[runId].(over := true)]) else s
  }

  function NextAdvance(s: State, task: TaskId, runId: RunId, ok: bool): State
    requires task in s.tasks
  {
    match s.tasks[task]
    case SimWait(owner) => Go(s, task, SimCheck(owner)).(simulator := Some(task))
    case SimCheck(owner) => if !ok || Active(s, owner) then Done(s, task) else Go(s, task, SimCreate(owner))
    case SimCreate(owner) =>
      if ok then Done(s, task).(runs := s.runs[runId := Run(owner, Simulated, false)]) else Done(s, task)
    case PlatformWait(owner) => Go(s, task, NativeWait(owner)).(platform := Some(task))
    case NativeWait(owner) => Go(s, task, NativeCheck(owner)).(simulator := Some(task))
    case NativeCheck(owner) => if Active(s, owner) then Done(s, task) else Go(s, task, NativeList(owner))
    case NativeList(owner) => Go(s, task, NativeRetain(owner, set r | r in s.runs && !s.runs[r].over))
    case NativeRetain(owner, active) =>
      var kept := s.services * active;
      if |kept| >= MAX_LIVE then Done(s, task).(services := kept)
      else Go(s, task, NativeCreate(owner)).(services := kept)
    case NativeCreate(owner) =>
      if ok then Go(s, task, NativeInsert(owner, runId)).(runs := s.runs[runId := Run(owner, Native, false)])
      else Done(s, task)
    case NativeInsert(owner, created) => Go(s, task, NativeAuthorize(owner, created)).(services := s.services + {created})
    case NativeAuthorize(owner, created) =>
      if ok then Done(s, task).(started := s.started + {created}) else Go(s, task, NativeRemove(created))
    case NativeRemove(created) => Ended(Done(s, task), created, ok).(services := s.services - {created})
    case ObserveWait(owner) => Go(s, task, ObserveCreate(owner)).(platform := Some(task))
    case ObserveCreate(owner) =>
      if ok then Go(s, task, ObserveClose(runId)).(runs := s.runs[runId := Run(owner, Observed, false)])
      else Done(s, task)
    case ObserveClose(created) => Ended(Done(s, task), created, ok)
  }

  function Next(s: State, a: Action): State
    requires Enabled(s, a)
  {
    match a
    case Begin(task, first) => Go(s, task, first)
    case End(runId) => Ended(s, runId, true)
    case Advance(task, runId, ok) => NextAdvance(s, task, runId, ok)
  }

  ghost predicate Step(s: State, s': State) {
    exists a :: Enabled(s, a) && s' == Next(s, a)
  }

  ghost predicate IsRun(states: seq<State>) {
    && |states| > 0
    && Init(states[0])
    && forall i :: 0 <= i < |states| - 1 ==> Step(states[i], states[i + 1])
  }

  // ---------------------------------------------------------------- invariant

  ghost predicate Locked(s: State) {
    forall t :: t in s.tasks ==>
      && (HoldsSimulator(s.tasks[t]) <==> s.simulator == Some(t))
      && (HoldsPlatform(s.tasks[t]) <==> s.platform == Some(t))
  }

  ghost predicate LiveStart(s: State, r: RunId) {
    r in s.runs && !s.runs[r].over && !s.runs[r].origin.Observed?
  }

  ghost predicate IsNative(s: State, r: RunId) {
    r in s.runs && s.runs[r].origin.Native?
  }

  ghost predicate NoLiveStart(s: State, owner: Session) {
    forall r :: LiveStart(s, r) ==> s.runs[r].owner != owner
  }

  ghost predicate GoodPc(s: State, pc: Pc) {
    match pc
    case SimCreate(owner) => NoLiveStart(s, owner)
    case NativeList(owner) => NoLiveStart(s, owner)
    case NativeRetain(owner, active) =>
      NoLiveStart(s, owner) && forall r :: r in s.started && LiveStart(s, r) ==> r in active
    case NativeCreate(owner) => NoLiveStart(s, owner) && |s.services| < MAX_LIVE
    case NativeInsert(owner, created) => IsNative(s, created) && created !in s.started && |s.services| < MAX_LIVE
    case NativeAuthorize(owner, created) => IsNative(s, created) && created in s.services && created !in s.started
    case NativeRemove(created) => created !in s.started
    case _ => true
  }

  ghost predicate OneEach(s: State) {
    forall q, r :: LiveStart(s, q) && LiveStart(s, r) && s.runs[q].owner == s.runs[r].owner ==> q == r
  }

  ghost predicate Good(s: State) {
    && Locked(s)
    && (s.simulator.Some? ==> s.simulator.value in s.tasks)
    && (s.platform.Some? ==> s.platform.value in s.tasks)
    && (forall t :: t in s.tasks ==> GoodPc(s, s.tasks[t]))
    && OneEach(s)
    && |s.services| <= MAX_LIVE
    && (forall r :: r in s.started ==> IsNative(s, r))
    && (forall r :: r in s.started && LiveStart(s, r) ==> r in s.services)
  }

  // -------------------------------------------------------------- preservation

  lemma SmallerSet(a: set<RunId>, b: set<RunId>)
    requires a <= b
    ensures |a| <= |b|
  {
    if a != {} {
      var x :| x in a;
      SmallerSet(a - {x}, b - {x});
    }
  }

  /** Ending runs and dropping tasks preserves everything. */
  lemma EndKeepsGood(s: State, runId: RunId, ok: bool)
    requires Good(s)
    ensures Good(Ended(s, runId, ok))
  {
    var s' := Ended(s, runId, ok);
    assert forall r :: LiveStart(s', r) ==> LiveStart(s, r);
    assert forall t :: t in s.tasks && GoodPc(s, s.tasks[t]) ==> GoodPc(s', s.tasks[t]);
  }

  lemma DoneKeepsGood(s: State, task: TaskId)
    requires Good(s) && task in s.tasks
    ensures Good(Done(s, task))
  {
    var s' := Done(s, task);
    assert forall r :: LiveStart(s', r) == LiveStart(s, r);
    assert forall t :: t in s'.tasks ==> GoodPc(s', s.tasks[t]) == GoodPc(s, s.tasks[t]);
  }

  /** Moving a task, with the lock it takes. */
  lemma GoKeepsGood(s: State, task: TaskId, pc: Pc, simulator: Option<TaskId>, platform: Option<TaskId>)
    requires Good(s) && GoodPc(s, pc)
    requires simulator == (if HoldsSimulator(pc) then Some(task) else s.simulator)
    requires platform == (if HoldsPlatform(pc) then Some(task) else s.platform)
    requires simulator != s.simulator ==> s.simulator.None?
    requires platform != s.platform ==> s.platform.None?
    requires HoldsSimulator(pc) || (task in s.tasks ==> !HoldsSimulator(s.tasks[task]))
    requires HoldsPlatform(pc) || (task in s.tasks ==> !HoldsPlatform(s.tasks[task]))
    requires task in s.tasks || (s.simulator != Some(task) && s.platform != Some(task))
    ensures Good(Go(s, task, pc).(simulator := simulator, platform := platform))
  {
    var s' := Go(s, task, pc).(simulator := simulator, platform := platform);
    assert forall r :: LiveStart(s', r) == LiveStart(s, r);
    assert forall p :: GoodPc(s', p) == GoodPc(s, p);
  }

  /** Steps that keep runs, services and starts only move a task or take a lock. */
  lemma QuietStepKeepsGood(s: State, task: TaskId, runId: RunId, ok: bool)
    requires Good(s) && Enabled(s, Advance(task, runId, ok))
    requires var pc := s.tasks[task];
             pc.SimWait? || pc.SimCheck? || pc.PlatformWait? || pc.NativeWait? || pc.NativeCheck? || pc.NativeList? || pc.ObserveWait?
    ensures Good(NextAdvance(s, task, runId, ok))
  {
    hide Good, OneEach;
    GoodAt(s, task);
    DoneKeepsGood(s, task);
    match s.tasks[task]
    case SimWait(owner) => GoKeepsGood(s, task, SimCheck(owner), Some(task), s.platform);
    case SimCheck(owner) =>
      if !Active(s, owner) { GoKeepsGood(s, task, SimCreate(owner), Some(task), s.platform); }
    case PlatformWait(owner) => GoKeepsGood(s, task, NativeWait(owner), s.simulator, Some(task));
    case NativeWait(owner) => GoKeepsGood(s, task, NativeCheck(owner), Some(task), Some(task));
    case NativeCheck(owner) =>
      if !Active(s, owner) { GoKeepsGood(s, task, NativeList(owner), Some(task), Some(task)); }
    case NativeList(owner) =>
      GoKeepsGood(s, task, NativeRetain(owner, set r | r in s.runs && !s.runs[r].over), Some(task), Some(task));
    case ObserveWait(owner) => GoKeepsGood(s, task, ObserveCreate(owner), s.simulator, Some(task));
  }

  /** What runs, services and starts owe each other. */
  ghost predicate Kept(s: State) {
    && OneEach(s) && |s.services| <= MAX_LIVE && (forall r :: r in s.started ==> IsNative(s, r))
    && forall r :: r in s.started && LiveStart(s, r) ==> r in s.services
  }

  /** The holder of the simulator lock may change the rest: no other position depends on it. */
  lemma SoleChange(s: State, s': State, task: TaskId, pc: Pc)
    requires Good(s) && task in s.tasks && HoldsSimulator(s.tasks[task]) && HoldsSimulator(pc)
    requires HoldsPlatform(s.tasks[task]) && HoldsPlatform(pc)
    requires s'.tasks == s.tasks[task := pc] && s'.simulator == s.simulator && s'.platform == s.platform
    requires Kept(s') && GoodPc(s', pc)
    ensures Good(s')
  {
    assert forall t :: t in s.tasks && t != task ==> !HoldsSimulator(s.tasks[t]);
  }

  /** With the simulator lock free no position depends on the rest. */
  lemma FreeChange(s: State, s': State)
    requires Good(s) && s.simulator.None?
    requires s'.tasks == s.tasks && s'.simulator == s.simulator && s'.platform == s.platform
    requires Kept(s')
    ensures Good(s')
  {
  }

  lemma NewRunIsKept(s: State, runId: RunId, run: Run)
    requires Good(s) && runId !in s.runs && (!run.origin.Observed? ==> NoLiveStart(s, run.owner))
    ensures Kept(s.(runs := s.runs[runId := run])) && runId !in s.started
  {
  }

  lemma SimCreateKeepsGood(s: State, task: TaskId, runId: RunId, ok: bool)
    requires Good(s) && Enabled(s, Advance(task, runId, ok)) && s.tasks[task].SimCreate?
    ensures Good(NextAdvance(s, task, runId, ok))
  {
    hide Good, Kept, OneEach;
    GoodAt(s, task);
    DoneKeepsGood(s, task);
    var run := Run(s.tasks[task].owner, Simulated, false);
    assert NoLiveStart(s, run.owner) ==> NoLiveStart(Done(s, task), run.owner) by {
      assert forall r :: LiveStart(Done(s, task), r) == LiveStart(s, r);
    }
    NewRunIsKept(Done(s, task), runId, run);
    FreeChange(Done(s, task), Done(s, task).(runs := s.runs[runId := run]));
  }

  lemma GoodAt(s: State, task: TaskId)
    requires Good(s) && task in s.tasks
    ensures GoodPc(s, s.tasks[task])
    ensures HoldsSimulator(s.tasks[task]) <==> s.simulator == Some(task)
    ensures HoldsPlatform(s.tasks[task]) <==> s.platform == Some(task)
  {
  }

  lemma NativeCreateKeepsGood(s: State, task: TaskId, runId: RunId, ok: bool)
    requires Good(s) && Enabled(s, Advance(task, runId, ok)) && s.tasks[task].NativeCreate?
    ensures Good(NextAdvance(s, task, runId, ok))
  {
    hide Good, Kept, OneEach;
    GoodAt(s, task);
    DoneKeepsGood(s, task);
    var owner := s.tasks[task].owner;
    if ok {
      var s1 := s.(runs := s.runs[runId := Run(owner, Native, false)]);
      NewRunIsKept(s, runId, Run(owner, Native, false));
      TasksDoNotMatter(s1, s1.tasks[task := NativeInsert(owner, runId)]);
      SoleChange(s, Go(s1, task, NativeInsert(owner, runId)), task, NativeInsert(owner, runId));
    }
  }

  lemma TasksDoNotMatter(s: State, tasks: map<TaskId, Pc>)
    requires Kept(s)
    ensures Kept(s.(tasks := tasks))
  {
  }

  lemma ObserveCreateKeepsGood(s: State, task: TaskId, runId: RunId, ok: bool)
    requires Good(s) && Enabled(s, Advance(task, runId, ok)) && s.tasks[task].ObserveCreate?
    ensures Good(NextAdvance(s, task, runId, ok))
  {
    hide Locked;
    DoneKeepsGood(s, task);
    if ok {
      var run := Run(s.tasks[task].owner, Observed, false);
      var s1 := s.(runs := s.runs[runId := run]);
      NewRunIsKept(s, runId, run);
      assert forall r :: LiveStart(s1, r) == LiveStart(s, r);
      assert forall p :: GoodPc(s, p) ==> GoodPc(s1, p);
      assert Locked(s1) by { SameLocks(s, s1); }
      GoodAt(s, task);
      GoKeepsGood(s1, task, ObserveClose(runId), s.simulator, Some(task));
    }
  }

  lemma SameLocks(s: State, s': State)
    requires Locked(s) && s'.tasks == s.tasks && s'.simulator == s.simulator && s'.platform == s.platform
    ensures Locked(s')
  {
  }

  lemma RetainKeepsGood(s: State, task: TaskId, runId: RunId, ok: bool)
    requires Good(s) && Enabled(s, Advance(task, runId, ok)) && s.tasks[task].NativeRetain?
    ensures Good(NextAdvance(s, task, runId, ok))
  {
    hide Good;
    GoodAt(s, task);
    var pc := s.tasks[task];
    var s1 := s.(services := s.services * pc.active);
    SmallerSet(s1.services, s.services);
    assert Kept(s1) by { RetainedIsKept(s, pc.active); }
    SoleChange(s, s1, task, pc);
    DoneKeepsGood(s1, task);
    if |s1.services| < MAX_LIVE { GoKeepsGood(s1, task, NativeCreate(pc.owner), Some(task), Some(task)); }
  }

  lemma RetainedIsKept(s: State, active: set<RunId>)
    requires Good(s) && forall r :: r in s.started && LiveStart(s, r) ==> r in active
    ensures Kept(s.(services := s.services * active))
  {
    var s' := s.(services := s.services * active);
    SmallerSet(s'.services, s.services);
    assert forall r :: LiveStart(s', r) == LiveStart(s, r);
  }

  lemma InsertKeepsGood(s: State, task: TaskId, runId: RunId, ok: bool)
    requires Good(s) && Enabled(s, Advance(task, runId, ok)) && s.tasks[task].NativeInsert?
    ensures Good(NextAdvance(s, task, runId, ok))
  {
  }

  lemma AuthorizeKeepsGood(s: State, task: TaskId, runId: RunId, ok: bool)
    requires Good(s) && Enabled(s, Advance(task, runId, ok)) && s.tasks[task].NativeAuthorize?
    ensures Good(NextAdvance(s, task, runId, ok))
  {
    var pc := s.tasks[task];
    DoneKeepsGood(s, task);
    if ok {
      var s1 := Done(s, task);
      var s2 := s1.(started := s.started + {pc.created});
      assert forall r :: LiveStart(s2, r) == LiveStart(s1, r);
      FreeChange(s1, s2);
    } else {
      GoKeepsGood(s, task, NativeRemove(pc.created), Some(task), Some(task));
    }
  }

  lemma CloseKeepsGood(s: State, task: TaskId, runId: RunId, ok: bool)
    requires Good(s) && Enabled(s, Advance(task, runId, ok))
    requires s.tasks[task].NativeRemove? || s.tasks[task].ObserveClose?
    ensures Good(NextAdvance(s, task, runId, ok))
  {
    hide Good;
    var created := s.tasks[task].created;
    GoodAt(s, task);
    DoneKeepsGood(s, task);
    EndKeepsGood(Done(s, task), created, ok);
    if s.tasks[task].NativeRemove? {
      var s1 := Ended(Done(s, task), created, ok);
      RemovedIsKept(s1, created);
      FreeChange(s1, s1.(services := s1.services - {created}));
    }
  }

  lemma RemovedIsKept(s: State, r: RunId)
    requires Good(s) && r !in s.started
    ensures Kept(s.(services := s.services - {r}))
  {
  }

  lemma StepKeepsGood(s: State, a: Action)
    requires Good(s) && Enabled(s, a)
    ensures Good(Next(s, a))
  {
    hide Good, NextAdvance;
    match a
    case Begin(task, first) => BeginKeepsGood(s, task, first);
    case End(runId) => EndKeepsGood(s, runId, true);
    case Advance(task, runId, ok) =>
      var pc := s.tasks[task];
      if pc.SimCreate? { SimCreateKeepsGood(s, task, runId, ok); }
      else if pc.NativeCreate? { NativeCreateKeepsGood(s, task, runId, ok); }
      else if pc.ObserveCreate? { ObserveCreateKeepsGood(s, task, runId, ok); }
      else if pc.NativeRetain? { RetainKeepsGood(s, task, runId, ok); }
      else if pc.NativeInsert? { InsertKeepsGood(s, task, runId, ok); }
      else if pc.NativeAuthorize? { AuthorizeKeepsGood(s, task, runId, ok); }
      else if pc.NativeRemove? || pc.ObserveClose? { CloseKeepsGood(s, task, runId, ok); }
      else { QuietStepKeepsGood(s, task, runId, ok); }
  }

  lemma BeginKeepsGood(s: State, task: TaskId, first: Pc)
    requires Good(s) && task !in s.tasks && Waits(first)
    ensures Good(Go(s, task, first))
  {
    GoKeepsGood(s, task, first, s.simulator, s.platform);
  }

  lemma {:induction false} RunsAreGood(states: seq<State>, i: nat)
    requires IsRun(states) && i < |states|
    ensures Good(states[i])
  {
    hide Good, Next, Enabled;
    if i == 0 {
      InitIsGood(states[0]);
    } else {
      RunsAreGood(states, i - 1);
      assert Step(states[i - 1], states[i - 1 + 1]);
      var a :| Enabled(states[i - 1], a) && states[i] == Next(states[i - 1], a);
      StepKeepsGood(states[i - 1], a);
    }
  }

  lemma InitIsGood(s: State)
    requires Init(s)
    ensures Good(s)
  {
  }

  // ------------------------------------------------------------- main results

  /**
   * In every run at most 32 native backends are attached, and a native run that was started and
   * has not ended still has its backend.
   */
  lemma BackendsStayAttached(states: seq<State>, n: nat, r: RunId)
    requires IsRun(states) && n < |states|
    ensures |states[n].services| <= MAX_LIVE
    ensures r in states[n].started ==> r in states[n].runs
    ensures r in states[n].started && !states[n].runs[r].over ==> r in states[n].services
  {
    RunsAreGood(states, n);
    assert r in states[n].started ==> IsNative(states[n], r);
  }

  /** Two live runs of one session: at least one of them comes from a one-off observation. */
  lemma OneLiveRunPerSession(states: seq<State>, n: nat, q: RunId, r: RunId)
    requires IsRun(states) && n < |states|
    requires q in states[n].runs && r in states[n].runs && q != r
    requires states[n].runs[q].owner == states[n].runs[r].owner
    requires !states[n].runs[q].over && !states[n].runs[r].over
    ensures states[n].runs[q].origin.Observed? || states[n].runs[r].origin.Observed?
  {
    RunsAreGood(states, n);
    assert LiveStart(states[n], q) || LiveStart(states[n], r) || states[n].runs[q].origin.Observed?;
  }

  // --------------------------------------------------------- undisturbed calls

  /** Up to `n` consecutive steps of one call whose own effects all succeed; a call that ended takes no further step. */
  function Solo(s: State, task: TaskId, runId: RunId, n: nat): State
    decreases n
  {
    if n == 0 || task !in s.tasks then s else Solo(NextAdvance(s, task, runId, true), task, runId, n - 1)
  }

  /** A call that finds both locks free and runs to its end undisturbed; `runId` is the id it creates a run under. */
  function Call(s: State, task: TaskId, first: Pc, runId: RunId): State {
    Solo(Go(s, task, first), task, runId, 8)
  }

  /** No call is under way, and the ids about to be used are new. */
  predicate Quiet(s: State, task: TaskId, runId: RunId) {
    s.simulator.None? && s.platform.None? && task !in s.tasks && runId !in s.runs
  }

  function Live(s: State): set<RunId> {
    set r | r in s.runs && !s.runs[r].over
  }

  lemma SoloStep(s: State, task: TaskId, runId: RunId, n: nat)
    requires n > 0 && task in s.tasks
    ensures Solo(s, task, runId, n) == Solo(NextAdvance(s, task, runId, true), task, runId, n - 1)
  {
  }

  lemma SoloEnds(s: State, task: TaskId, runId: RunId, n: nat)
    requires task !in s.tasks
    ensures Solo(s, task, runId, n) == s
  {
  }

  predicate OwnsLive(s: State, owner: Session) {
    exists r :: r in Live(s) && s.runs[r].owner == owner
  }

  lemma ActiveExactly(s: State, owner: Session)
    ensures Active(s, owner) <==> OwnsLive(s, owner)
  {
    if r :| r in s.runs && s.runs[r].owner == owner && !s.runs[r].over { assert r in Live(s); }
  }

  /** A step whose own effect fails before anything was created ends the call and leaves the rest alone. */
  lemma FailedEffectEnds(s: State, task: TaskId, runId: RunId)
    requires task in s.tasks
    requires var pc := s.tasks[task]; pc.SimCheck? || pc.SimCreate? || pc.NativeCreate? || pc.ObserveCreate?
    ensures NextAdvance(s, task, runId, false) == Done(s, task)
    ensures Done(s, task).runs == s.runs && Done(s, task).services == s.services && Done(s, task).started == s.started
  {
  }

  /** An undisturbed simulator start creates a run exactly when its session has no live run. */
  lemma SimulatorStarts(s: State, task: TaskId, owner: Session, runId: RunId)
    requires Quiet(s, task, runId)
    ensures Call(s, task, SimWait(owner), runId) ==
            if OwnsLive(s, owner) then s else s.(runs := s.runs[runId := Run(owner, Simulated, false)])
  {
    hide Solo;
    var s1 := Go(s, task, SimWait(owner));
    var s2 := Go(s, task, SimCheck(owner)).(simulator := Some(task));
    SoloStep(s1, task, runId, 8);
    assert NextAdvance(s1, task, runId, true) == s2;
    SoloStep(s2, task, runId, 7);
    ActiveExactly(s, owner);
    assert Active(s2, owner) == Active(s, owner) && s2.tasks - {task} == s.tasks;
    if Active(s, owner) {
      SoloEnds(s, task, runId, 6);
    } else {
      var s3 := Go(s2, task, SimCreate(owner));
      SoloStep(s3, task, runId, 6);
      assert s3.tasks - {task} == s.tasks;
      SoloEnds(NextAdvance(s3, task, runId, true), task, runId, 5);
    }
  }

  /** An undisturbed observation leaves one more run, and that run is over. */
  lemma ObservationEnds(s: State, task: TaskId, owner: Session, runId: RunId)
    requires Quiet(s, task, runId)
    ensures Call(s, task, ObserveWait(owner), runId) == s.(runs := s.runs[runId := Run(owner, Observed, true)])
  {
    hide Solo;
    var s1 := Go(s, task, ObserveWait(owner));
    var s2 := Go(s, task, ObserveCreate(owner)).(platform := Some(task));
    var s3 := Go(s2, task, ObserveClose(runId)).(runs := s.runs[runId := Run(owner, Observed, false)]);
    SoloStep(s1, task, runId, 8);
    assert NextAdvance(s1, task, runId, true) == s2;
    SoloStep(s2, task, runId, 7);
    SoloStep(s3, task, runId, 6);
    assert s3.tasks - {task} == s.tasks;
    assert s3.runs[runId := Run(owner, Observed, true)] == s.runs[runId := Run(owner, Observed, true)];
    SoloEnds(NextAdvance(s3, task, runId, true), task, runId, 5);
  }

  /**
   * An undisturbed native start succeeds exactly when its session has no live run and fewer than 32
   * live runs hold a backend: backends of runs that ended are given up first.
   */
  lemma NativeStarts(s: State, task: TaskId, owner: Session, runId: RunId)
    requires Quiet(s, task, runId)
    ensures var kept := s.services * Live(s);
            Call(s, task, PlatformWait(owner), runId) ==
            if OwnsLive(s, owner) then s
            else if |kept| >= MAX_LIVE then s.(services := kept)
            else s.(runs := s.runs[runId := Run(owner, Native, false)],
                    services := kept + {runId},
                    started := s.started + {runId})
  {
    hide Solo, Inside, Call;
    NativeEnters(s, task, owner, runId);
    NativeChecks(s, task, owner, runId);
    NativeRetains(s, task, owner, runId);
    NativeFinishes(s.(services := s.services * Live(s)), task, owner, runId);
  }

  /** A native start that stands at `pc` and has changed nothing else since `s`. */
  function Inside(s: State, task: TaskId, pc: Pc): State {
    Go(s, task, pc).(simulator := Some(task), platform := Some(task))
  }

  lemma DoneLeaves(s: State, task: TaskId, runId: RunId, pc: Pc)
    requires Quiet(s, task, runId)
    ensures Done(Inside(s, task, pc), task) == s
  {
    assert s.tasks[task := pc] - {task} == s.tasks;
  }

  lemma NativeEnters(s: State, task: TaskId, owner: Session, runId: RunId)
    requires Quiet(s, task, runId)
    ensures Call(s, task, PlatformWait(owner), runId) == Solo(Inside(s, task, NativeCheck(owner)), task, runId, 6)
  {
    hide Solo;
    var s1 := Go(s, task, PlatformWait(owner));
    var s2 := NextAdvance(s1, task, runId, true);
    SoloStep(s1, task, runId, 8);
    SoloStep(s2, task, runId, 7);
    assert NextAdvance(s2, task, runId, true) == Inside(s, task, NativeCheck(owner));
  }

  lemma NativeChecks(s: State, task: TaskId, owner: Session, runId: RunId)
    requires Quiet(s, task, runId)
    ensures Solo(Inside(s, task, NativeCheck(owner)), task, runId, 6) ==
            if OwnsLive(s, owner) then s else Solo(Inside(s, task, NativeList(owner)), task, runId, 5)
  {
    hide Solo;
    var s1 := Inside(s, task, NativeCheck(owner));
    SoloStep(s1, task, runId, 6);
    DoneLeaves(s, task, runId, NativeCheck(owner));
    ActiveExactly(s, owner);
    assert Active(s1, owner) == Active(s, owner);
    if Active(s, owner) { SoloEnds(s, task, runId, 5); }
    else { assert Go(s1, task, NativeList(owner)) == Inside(s, task, NativeList(owner)); }
  }

  lemma NativeRetains(s: State, task: TaskId, owner: Session, runId: RunId)
    requires Quiet(s, task, runId)
    ensures var kept := s.services * Live(s);
            Solo(Inside(s, task, NativeList(owner)), task, runId, 5) ==
            if |kept| >= MAX_LIVE then s.(services := kept)
            else Solo(Inside(s.(services := kept), task, NativeCreate(owner)), task, runId, 3)
  {
    hide Solo, NextAdvance;
    var s1, s2 := Inside(s, task, NativeList(owner)), Inside(s, task, NativeRetain(owner, Live(s)));
    SoloStep(s1, task, runId, 5);
    ListStep(s, task, owner, runId);
    SoloStep(s2, task, runId, 4);
    RetainStep(s, task, owner, runId);
    SoloEnds(s.(services := s.services * Live(s)), task, runId, 3);
  }

  lemma ListStep(s: State, task: TaskId, owner: Session, runId: RunId)
    requires Quiet(s, task, runId)
    ensures NextAdvance(Inside(s, task, NativeList(owner)), task, runId, true) == Inside(s, task, NativeRetain(owner, Live(s)))
  {
    assert Live(Inside(s, task, NativeList(owner))) == Live(s);
  }

  lemma RetainStep(s: State, task: TaskId, owner: Session, runId: RunId)
    requires Quiet(s, task, runId)
    ensures var kept := s.services * Live(s);
            NextAdvance(Inside(s, task, NativeRetain(owner, Live(s))), task, runId, true) ==
            if |kept| >= MAX_LIVE then s.(services := kept) else Inside(s.(services := kept), task, NativeCreate(owner))
  {
    DoneLeaves(s, task, runId, NativeRetain(owner, Live(s)));
  }

  lemma NativeFinishes(s: State, task: TaskId, owner: Session, runId: RunId)
    requires Quiet(s, task, runId)
    ensures Solo(Inside(s, task, NativeCreate(owner)), task, runId, 3) ==
            s.(runs := s.runs[runId := Run(owner, Native, false)],
               services := s.services + {runId},
               started := s.started + {runId})
  {
    hide Solo;
    var s1 := Inside(s, task, NativeCreate(owner));
    var runs := s.runs[runId := Run(owner, Native, false)];
    var s2 := Inside(s.(runs := runs), task, NativeInsert(owner, runId));
    var s3 := Inside(s.(runs := runs, services := s.services + {runId}), task, NativeAuthorize(owner, runId));
    SoloStep(s1, task, runId, 3);
    assert NextAdvance(s1, task, runId, true) == s2;
    SoloStep(s2, task, runId, 2);
    assert NextAdvance(s2, task, runId, true) == s3;
    SoloStep(s3, task, runId, 1);
    DoneLeaves(s, task, runId, NativeAuthorize(owner, runId));
    SoloEnds(NextAdvance(s3, task, runId, true), task, runId, 0);
  }

  /** A native start whose authorization is refused gives its backend back, and ends its run if it can. */
  lemma RefusedStartLeavesNoBackend(s: State, task: TaskId, owner: Session, created: RunId, ended: bool)
    requires Quiet(s, task, created)
    ensures var made := s.(runs := s.runs[created := Run(owner, Native, false)], services := s.services + {created});
            var refused := NextAdvance(Inside(made, task, NativeAuthorize(owner, created)), task, created, false);
            && task in refused.tasks
            && NextAdvance(refused, task, created, ended) ==
               s.(runs := s.runs[created := Run(owner, Native, ended)], services := s.services - {created})
  {
    var runs := s.runs[created := Run(owner, Native, false)];
    var made := s.(runs := runs, services := s.services + {created});
    var refused := NextAdvance(Inside(made, task, NativeAuthorize(owner, created)), task, created, false);
    assert refused.tasks[task] == NativeRemove(created) && refused.tasks - {task} == s.tasks;
    assert runs[created := Run(owner, Native, true)] == s.runs[created := Run(owner, Native, true)];
  }

  /** A run that ends gives up its claim to a backend, so the next native start finds room for one more. */
  lemma EndedRunFreesBackend(s: State, r: RunId)
    requires r in s.runs
    ensures var s' := Next(s, End(r));
            && s'.services * Live(s') == s.services * Live(s) - {r}
            && (r in s.services && !s.runs[r].over ==> |s'.services * Live(s')| == |s.services * Live(s)| - 1)
  {
    var s' := Next(s, End(r));
    assert Live(s') == Live(s) - {r};
    assert s'.services * Live(s') == s.services * Live(s) - {r};
  }

  lemma Extend(states: seq<State>, a: Action) returns (longer: seq<State>)
    requires IsRun(states) && Enabled(states[|states| - 1], a)
    ensures IsRun(longer) && |longer| == |states| + 1
    ensures longer[|states|] == Next(states[|states| - 1], a)
  {
    longer := states + [Next(states[|states| - 1], a)];
    forall i | 0 <= i < |longer| - 1
      ensures Step(longer[i], longer[i + 1])
    {
      if i < |states| - 1 { assert Step(states[i], states[i + 1]); }
    }
  }

  /** The exception is real: an observation that overlaps a start leaves one session with two live runs. */
  lemma ObservationOverlapsStart(owner: Session) returns (states: seq<State>)
    ensures IsRun(states)
    ensures states[|states| - 1].runs == map[0 := Run(owner, Observed, false), 1 := Run(owner, Simulated, false)]
  {
    hide IsRun, NextAdvance;
    states := [State(None, None, map[], map[], {}, {})];
    assert IsRun(states) by { StartIsRun(states[0]); }
    states := Extend(states, Begin(0, ObserveWait(owner)));
    states := Extend(states, Begin(1, SimWait(owner)));
    assert states[2] == State(None, None, map[0 := ObserveWait(owner), 1 := SimWait(owner)], map[], {}, {});
    states := Overlap(states, owner);
  }

  lemma StartIsRun(s: State)
    requires Init(s)
    ensures IsRun([s])
  {
  }

  lemma Overlap(start: seq<State>, owner: Session) returns (states: seq<State>)
    requires IsRun(start) && |start| == 3
    requires start[2] == State(None, None, map[0 := ObserveWait(owner), 1 := SimWait(owner)], map[], {}, {})
    ensures IsRun(states)
    ensures states[|states| - 1].runs == map[0 := Run(owner, Observed, false), 1 := Run(owner, Simulated, false)]
  {
    hide IsRun;
    states := Extend(start, Advance(0, 0, true));
    states := Extend(states, Advance(1, 0, true));
    states := Extend(states, Advance(1, 0, true));
    assert states[5].tasks == map[0 := ObserveCreate(owner), 1 := SimCreate(owner)] && states[5].runs == map[];
    states := Extend(states, Advance(0, 0, true));
    assert states[6].runs == map[0 := Run(owner, Observed, false)] && states[6].tasks[1] == SimCreate(owner);
    states := Extend(states, Advance(1, 1, true));
  }
}
