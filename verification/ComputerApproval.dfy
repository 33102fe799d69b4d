/**
 * The desktop cockpit's one-use approval: stage puts an approval in the single slot, approve
 * sends it to the service. Stage and approve hold the simulator lock while they run, step by
 * step. Discard, pause, take over, stop, snapshots of other sessions and every service mutation
 * run at any moment between those steps, because they take no lock. The actions below are those
 * atomic steps; a run is any interleaving of them.
 */
module ComputerApproval {

  import opened Wrappers
  import opened ComputerRuns

  type RunId = nat
  type ApprovalId = nat
  type RequestId = nat
  type TaskId = nat

  datatype Approval = Approval(
    id: ApprovalId, owner: Session, runId: RunId, version: nat, observationId: ObservationId, action: ComputerAction)

  /** What one stage call recorded, with the observation it was staged against. */
  datatype Staging = Staging(approval: Approval, observation: Observation)

  /** What an approve call asks for: the session that asks, the approval it names, the request it is made under. */
  datatype Ask = Ask(session: Session, wanted: ApprovalId, request: RequestId)

  /** An approval handed to `act`, with the call that did so. */
  datatype Acted = Acted(approval: Approval, ask: Ask)

  /** One action handed to the backend, with the run as it was when the action was prepared. */
  datatype Dispatch = Dispatch(approval: Approval, ask: Ask, run: Run)

  datatype StageCall = StageCall(
    owner: Session, runId: RunId, version: nat, observationId: ObservationId, action: ComputerAction, valid: bool)

  /** Where a stage or approve call stands. Every position but the two waits holds the lock. */
  datatype Pc =
    | StageWait(call: StageCall)
    | StageRead(call: StageCall)
    | StagePut(call: StageCall, seen: Observation)
    | ApproveWait(ask: Ask)
    | ApproveLookup(ask: Ask)
    | ApproveCheck(held: Approval, ask: Ask)
    | ActClaim(held: Approval, ask: Ask)
    | ActPrepare(held: Approval, ask: Ask)
    | ActSend(held: Approval, ask: Ask, prepared: Run)
    | ApproveClear(held: Approval, ask: Ask)

  predicate Holds(pc: Pc) {
    !pc.StageWait? && !pc.ApproveWait?
  }

  predicate Carries(pc: Pc) {
    pc.ApproveCheck? || pc.ActClaim? || pc.ActPrepare? || pc.ActSend? || pc.ApproveClear?
  }

  /** The last four fields are history: what was staged and observed, which approvals reached `act`, what was sent. */
  datatype State = State(
    slot: Option<Approval>,
    lock: Option<TaskId>,
    tasks: map<TaskId, Pc>,
    runs: map<RunId, Run>,
    receipts: set<RequestId>,
    nextApproval: ApprovalId,
    staged: map<ApprovalId, Staging>,
    observed: map<ObservationId, Observation>,
    acted: seq<Acted>,
    dispatched: seq<Dispatch>)

  datatype Action =
    | Begin(task: TaskId, first: Pc)
    | Acquire(task: TaskId)
    | Advance(task: TaskId, verdict: Verdict)
    | ClearFor(owner: Session)
    | Snapshot(owner: Session)
    | Create(runId: RunId, owner: Session, native: bool, maxActions: nat)
    | Mutated(runId: RunId, mutation: Mutation)
    | Claimed(request: RequestId)

  /**
   * What a call cannot decide from this state: whether the run's backend is still attached, whether
   * a receipt can be written, and what the clock and the remaining policy checks say.
   */
  datatype Verdict = Verdict(attached: bool, claimed: bool, overLimit: bool, permitted: bool)

  ghost predicate Init(s: State) {
    && s.slot.None? && s.lock.None? && s.tasks == map[] && s.runs == map[]
    && s.staged == map[] && s.observed == map[] && s.acted == [] && s.dispatched == []
  }

  function Cleared(slot: Option<Approval>, owner: Session): Option<Approval> {
    if slot.Some? && slot.value.owner == owner then None else slot
  }

  function Release(s: State, task: TaskId): State {
    s.(lock := None, tasks := s.tasks - {task})
  }

  function Go(s: State, task: TaskId, pc: Pc): State {
    s.(tasks := s.tasks[task := pc])
  }

  predicate Enabled(s: State, a: Action) {
    match a
    case Begin(task, first) => task !in s.tasks && !Holds(first)
    case Acquire(task) => task in s.tasks && !Holds(s.tasks[task]) && s.lock.None?
    case Advance(task, _) => task in s.tasks && Holds(s.tasks[task])
    case ClearFor(_) => true
    case Snapshot(_) => true
    case Create(runId, _, _, _) => runId !in s.runs
    case Claimed(_) => true
    case Mutated(runId, m) =>
      runId in s.runs && (m.CommitObservation? ==> m.observation.id !in s.observed)
  }

  /** `owned_service`: the run exists and belongs to the session. */
  predicate Owned(s: State, owner: Session, runId: RunId) {
    runId in s.runs && s.runs[runId].owner == owner
  }

  function NextStageRead(s: State, task: TaskId, call: StageCall, v: Verdict): State {
    if !Owned(s, call.owner, call.runId) || !v.attached then Release(s, task)
    else
      var run := s.runs[call.runId];
      if run.version != call.version || !run.state.Ready? then Release(s, task)
      else if run.observation.None? || run.observation.value.id != call.observationId then Release(s, task)
      else if !call.valid || ApprovalCopy(run.observation.value, call.action).Err? then Release(s, task)
      else Go(s, task, StagePut(call, run.observation.value))
  }

  function NextStagePut(s: State, task: TaskId, call: StageCall, seen: Observation): State {
    if s.slot.Some? then Release(s, task)
    else
      var put := Approval(s.nextApproval, call.owner, call.runId, call.version, call.observationId, call.action);
      Release(s, task).(
        slot := Some(put),
        nextApproval := s.nextApproval + 1,
        staged := s.staged[put.id := Staging(put, seen)])
  }

  function NextApproveCheck(s: State, task: TaskId, held: Approval, ask: Ask, v: Verdict): State {
    if !Owned(s, ask.session, held.runId) || !v.attached then Release(s, task)
    else
      var run := s.runs[held.runId];
      if run.version == held.version && run.observation.Some? && run.observation.value.id == held.observationId
      then Go(s, task, ActClaim(held, ask)).(acted := s.acted + [Acted(held, ask)])
      else Release(s, task).(slot := Cleared(s.slot, ask.session))
  }

  /** `begin_mutation`: a request id is performed once; any other answer skips the action. */
  function NextActClaim(s: State, task: TaskId, held: Approval, ask: Ask, v: Verdict): State {
    if ask.request in s.receipts || !v.claimed then Go(s, task, ApproveClear(held, ask))
    else Go(s, task, ActPrepare(held, ask)).(receipts := s.receipts + {ask.request})
  }

  function NextActPrepare(s: State, task: TaskId, held: Approval, ask: Ask, v: Verdict): State {
    if held.runId !in s.runs then Go(s, task, ApproveClear(held, ask))
    else
      var run := s.runs[held.runId];
      var after := Mutate(run, PrepareAct(held.version, held.observationId, v.overLimit, v.permitted));
      if after.None? then Go(s, task, ApproveClear(held, ask))
      else
        var pc := if after.value.state.Acting? then ActSend(held, ask, run) else ApproveClear(held, ask);
        Go(s, task, pc).(runs := s.runs[held.runId := after.value])
  }

  function NextAdvance(s: State, task: TaskId, v: Verdict): State
    requires task in s.tasks && Holds(s.tasks[task])
  {
    match s.tasks[task]
    case StageWait(_) => s
    case ApproveWait(_) => s
    case StageRead(call) => NextStageRead(s, task, call, v)
    case StagePut(call, seen) => NextStagePut(s, task, call, seen)
    case ApproveLookup(ask) =>
      if s.slot.Some? && s.slot.value.owner == ask.session && s.slot.value.id == ask.wanted
      then Go(s, task, ApproveCheck(s.slot.value, ask))
      else Release(s, task)
    case ApproveCheck(held, ask) => NextApproveCheck(s, task, held, ask, v)
    case ActClaim(held, ask) => NextActClaim(s, task, held, ask, v)
    case ActPrepare(held, ask) => NextActPrepare(s, task, held, ask, v)
    case ActSend(held, ask, prepared) =>
      Go(s, task, ApproveClear(held, ask)).(dispatched := s.dispatched + [Dispatch(held, ask, prepared)])
    case ApproveClear(held, ask) => Release(s, task).(slot := Cleared(s.slot, ask.session))
  }

  function Next(s: State, a: Action): State
    requires Enabled(s, a)
  {
    match a
    case Begin(task, first) => Go(s, task, first)
    case Acquire(task) =>
      var pc := s.tasks[task];
      var entered := if pc.StageWait? then StageRead(pc.call) else ApproveLookup(pc.ask);
      Go(s, task, entered).(lock := Some(task))
    case Advance(task, v) => NextAdvance(s, task, v)
    case ClearFor(owner) => s.(slot := Cleared(s.slot, owner))
    case Snapshot(owner) => if s.slot.Some? && s.slot.value.owner != owner then s.(slot := None) else s
    case Create(runId, owner, native, maxActions) =>
      s.(runs := s.runs[runId := NewRun(owner, native, maxActions)])
    case Claimed(request) => s.(receipts := s.receipts + {request})
    case Mutated(runId, m) =>
      s.(runs := s.runs[runId := Apply(s.runs[runId], m)],
         observed := if m.CommitObservation? then s.observed[m.observation.id := m.observation] else s.observed)
  }

  ghost predicate Step(s: State, s': State) {
    exists a :: Enabled(s, a) && s' == Next(s, a)
  }

  ghost predicate IsRun(states: seq<State>) {
    && |states| > 0
    && Init(states[0])
    && forall i :: 0 <= i < |states| - 1 ==> Step(states[i], states[i + 1])
  }

  // ---------------------------------------------------------------- invariant

  /** Only the lock's task stands at a position that holds the lock. */
  predicate Locked(s: State) {
    forall t :: t in s.tasks ==> (Holds(s.tasks[t]) <==> s.lock == Some(t))
  }

  predicate Recorded(s: State, a: Approval) {
    a.id < s.nextApproval && a.id in s.staged && s.staged[a.id].approval == a
  }

  predicate Sent(s: State, id: ApprovalId) {
    exists i :: 0 <= i < |s.dispatched| && s.dispatched[i].approval.id == id
  }

  predicate Requested(s: State, request: RequestId) {
    exists i :: 0 <= i < |s.dispatched| && s.dispatched[i].ask.request == request
  }

  /** The version a dispatched or prepared action used up is behind its run. */
  predicate Spent(s: State, a: Approval) {
    a.runId in s.runs && a.version < s.runs[a.runId].version
  }

  predicate GoodObservations(s: State) {
    && (forall r :: r in s.runs && s.runs[r].observation.Some? ==>
          Seen(s, s.runs[r].observation.value))
    && (forall id :: id in s.staged ==> Seen(s, s.staged[id].observation))
  }

  predicate Seen(s: State, o: Observation) {
    o.id in s.observed && s.observed[o.id] == o
  }

  ghost predicate GoodStaging(s: State) {
    forall id :: id in s.staged ==>
      && id < s.nextApproval
      && s.staged[id].approval.id == id
      && s.staged[id].observation.id == s.staged[id].approval.observationId
      && Admissible(s.staged[id].observation, s.staged[id].approval.action)
  }

  /** The run an action was prepared on is exactly the run the approval names. */
  predicate Matches(s: State, a: Approval, run: Run) {
    && run.owner == a.owner && run.state.Ready? && run.version == a.version
    && run.observation.Some? && run.observation.value.id == a.observationId
    && Seen(s, run.observation.value)
    && Recorded(s, a) && Spent(s, a)
  }

  /** The call asks for this approval, and its session owns it. */
  predicate Names(ask: Ask, a: Approval) {
    ask.session == a.owner && ask.wanted == a.id
  }

  /** What the position of the lock's task implies. */
  ghost predicate GoodPc(s: State, pc: Pc) {
    match pc
    case StagePut(call, seen) =>
      Seen(s, seen) && seen.id == call.observationId && Admissible(seen, call.action)
    case ApproveCheck(held, ask) => Pending(s, held) && Names(ask, held)
    case ActClaim(held, ask) => Pending(s, held) && Names(ask, held) && Owned(s, held.owner, held.runId)
    case ActPrepare(held, ask) =>
      && Pending(s, held) && Names(ask, held) && Owned(s, held.owner, held.runId)
      && ask.request in s.receipts && !Requested(s, ask.request)
    case ActSend(held, ask, prepared) =>
      && Pending(s, held) && Names(ask, held) && Matches(s, held, prepared) && ask.request in s.receipts && !Requested(s, ask.request)
      && (forall i :: 0 <= i < |s.dispatched| ==>
            s.dispatched[i].approval.runId != held.runId || s.dispatched[i].approval.version != held.version)
    case ApproveClear(held, ask) => Recorded(s, held) && Names(ask, held) && SlotIsOrEmpty(s, held)
    case _ => true
  }

  predicate SlotIsOrEmpty(s: State, a: Approval) {
    s.slot.None? || s.slot.value == a
  }

  /** A held approval that has not been sent, while nothing else can enter the slot. */
  predicate Pending(s: State, a: Approval) {
    Recorded(s, a) && !Sent(s, a.id) && SlotIsOrEmpty(s, a)
  }

  predicate GoodSlot(s: State) {
    s.slot.Some? ==>
      && Recorded(s, s.slot.value)
      && (Sent(s, s.slot.value.id) ==>
            && s.lock.Some? && s.lock.value in s.tasks
            && s.tasks[s.lock.value].ApproveClear?)
  }

  predicate GoodDispatches(s: State) {
    && (forall i :: 0 <= i < |s.dispatched| ==>
          && Matches(s, s.dispatched[i].approval, s.dispatched[i].run)
          && Names(s.dispatched[i].ask, s.dispatched[i].approval)
          && s.dispatched[i].ask.request in s.receipts)
    && (forall i, j :: 0 <= i < j < |s.dispatched| ==>
          && s.dispatched[i].approval.id != s.dispatched[j].approval.id
          && s.dispatched[i].ask.request != s.dispatched[j].ask.request
          && (s.dispatched[i].approval.runId != s.dispatched[j].approval.runId ||
              s.dispatched[i].approval.version != s.dispatched[j].approval.version))
  }

  ghost predicate Good(s: State) {
    && Locked(s)
    && (s.lock.Some? ==> s.lock.value in s.tasks && GoodPc(s, s.tasks[s.lock.value]))
    && GoodSlot(s)
    && GoodStaging(s)
    && GoodObservations(s)
    && GoodDispatches(s)
  }

  // -------------------------------------------------------------- preservation

  lemma ClearKeepsGood(s: State, slot: Option<Approval>)
    requires Good(s) && (slot == s.slot || slot.None?)
    ensures Good(s.(slot := slot))
  {
    hide Admissible;
    var s' := s.(slot := slot);
    assert forall id :: Sent(s', id) == Sent(s, id);
    assert forall r :: Requested(s', r) == Requested(s, r);
  }

  /** Runs keep their owner and never go back, and what was observed stays. */
  predicate RunsGoOn(s: State, runs: map<RunId, Run>, observed: map<ObservationId, Observation>) {
    && (forall r :: r in s.runs ==> r in runs && runs[r].owner == s.runs[r].owner && s.runs[r].version <= runs[r].version)
    && (forall o :: o in s.observed ==> o in observed && observed[o] == s.observed[o])
  }

  lemma PcSurvivesRuns(s: State, runs: map<RunId, Run>, observed: map<ObservationId, Observation>, pc: Pc)
    requires RunsGoOn(s, runs, observed) && GoodPc(s, pc)
    ensures GoodPc(s.(runs := runs, observed := observed), pc)
  {
    hide Admissible;
    var s' := s.(runs := runs, observed := observed);
    assert forall id :: Sent(s', id) == Sent(s, id);
    assert forall r :: Requested(s', r) == Requested(s, r);
  }

  lemma DispatchesSurviveRuns(s: State, runs: map<RunId, Run>, observed: map<ObservationId, Observation>)
    requires RunsGoOn(s, runs, observed) && GoodDispatches(s)
    ensures GoodDispatches(s.(runs := runs, observed := observed))
  {
    var s' := s.(runs := runs, observed := observed);
    assert forall a, r :: Matches(s, a, r) ==> Matches(s', a, r);
  }

  lemma RunsKeepGood(s: State, runs: map<RunId, Run>, observed: map<ObservationId, Observation>)
    requires Good(s) && RunsGoOn(s, runs, observed)
    requires forall r :: r in runs && runs[r].observation.Some? ==>
               runs[r].observation.value.id in observed && observed[runs[r].observation.value.id] == runs[r].observation.value
    ensures Good(s.(runs := runs, observed := observed))
  {
    hide Admissible, GoodPc, GoodDispatches;
    var s' := s.(runs := runs, observed := observed);
    if s.lock.Some? { PcSurvivesRuns(s, runs, observed, s.tasks[s.lock.value]); }
    DispatchesSurviveRuns(s, runs, observed);
    assert forall id :: Sent(s', id) == Sent(s, id);
    assert forall o :: Seen(s, o) ==> Seen(s', o);
  }

  lemma ObservationSource(r: Run, m: Mutation)
    ensures var o := Apply(r, m).observation;
            o.None? || o == r.observation || (m.CommitObservation? && o == Some(m.observation))
  {
  }

  lemma ReleaseKeepsGood(s: State, task: TaskId)
    requires Good(s) && s.lock == Some(task) && task in s.tasks
    requires s.slot.Some? ==> !Sent(s, s.slot.value.id)
    ensures Good(Release(s, task))
  {
  }

  lemma GoKeepsGood(s: State, task: TaskId, pc: Pc)
    requires Good(s) && s.lock == Some(task) && task in s.tasks && Holds(pc)
    requires GoodPc(s, pc)
    requires s.slot.Some? && Sent(s, s.slot.value.id) ==> pc.ApproveClear?
    ensures Good(Go(s, task, pc))
  {
    hide Admissible;
    var s' := Go(s, task, pc);
    assert forall id :: Sent(s', id) == Sent(s, id);
    assert forall r :: Requested(s', r) == Requested(s, r);
    assert forall a, r :: Matches(s, a, r) == Matches(s', a, r);
  }

  lemma StageKeepsGood(s: State, task: TaskId, v: Verdict)
    requires Good(s) && s.lock == Some(task) && task in s.tasks
    requires s.tasks[task].StageRead? || s.tasks[task].StagePut?
    ensures Good(NextAdvance(s, task, v))
  {
    hide Admissible, ApprovalCopy;
    var pc := s.tasks[task];
    ReleaseKeepsGood(s, task);
    if pc.StageRead? {
      if NextStageRead(s, task, pc.call, v) != Release(s, task) {
        var seen := s.runs[pc.call.runId].observation.value;
        ApprovalCopyIsExact(seen, pc.call.action);
        GoKeepsGood(s, task, StagePut(pc.call, seen));
      }
    } else if s.slot.None? {
      PutKeepsGood(Release(s, task), pc.call, pc.seen);
    }
  }

  lemma PutKeepsGood(s: State, call: StageCall, seen: Observation)
    requires Good(s) && s.slot.None? && s.lock.None?
    requires Seen(s, seen) && seen.id == call.observationId && Admissible(seen, call.action)
    ensures var put := Approval(s.nextApproval, call.owner, call.runId, call.version, call.observationId, call.action);
            Good(s.(slot := Some(put), nextApproval := s.nextApproval + 1, staged := s.staged[put.id := Staging(put, seen)]))
  {
  }

  lemma ReceiptsKeepGood(s: State, request: RequestId)
    requires Good(s)
    ensures Good(s.(receipts := s.receipts + {request}))
  {
    hide Admissible;
    var s' := s.(receipts := s.receipts + {request});
    assert forall id :: Sent(s', id) == Sent(s, id);
    assert forall r :: Requested(s', r) == Requested(s, r);
    assert forall a, r :: Matches(s, a, r) == Matches(s', a, r);
  }

  lemma PrepareKeepsGood(s: State, task: TaskId, v: Verdict)
    requires Good(s) && s.lock == Some(task) && task in s.tasks && s.tasks[task].ActPrepare?
    ensures Good(NextAdvance(s, task, v))
  {
    hide Admissible, Mutate;
    var pc := s.tasks[task];
    var run := s.runs[pc.held.runId];
    var m := PrepareAct(pc.held.version, pc.held.observationId, v.overLimit, v.permitted);
    var after := Mutate(run, m);
    if after.None? {
      GoKeepsGood(s, task, ApproveClear(pc.held, pc.ask));
    } else {
      MutationLaws(run, m);
      ObservationSource(run, m);
      var s1 := s.(runs := s.runs[pc.held.runId := after.value]);
      RunsKeepGood(s, s1.runs, s.observed);
      assert s1 == s.(runs := s1.runs, observed := s.observed);
      assert Pending(s1, pc.held);
      if after.value.state.Acting? {
        PrepareConsumesVersion(run, m);
        PreparedMatches(s, s1, pc.held, pc.ask, run);
        GoKeepsGood(s1, task, ActSend(pc.held, pc.ask, run));
      } else {
        GoKeepsGood(s1, task, ApproveClear(pc.held, pc.ask));
      }
    }
  }

  lemma PreparedMatches(s: State, s1: State, held: Approval, ask: Ask, run: Run)
    requires Good(s) && GoodPc(s, ActPrepare(held, ask)) && s.runs[held.runId] == run
    requires held.runId in s1.runs && s1 == s.(runs := s.runs[held.runId := s1.runs[held.runId]])
    requires s1.runs[held.runId].version == run.version + 1
    requires run.state.Ready? && run.version == held.version
    requires run.observation.Some? && run.observation.value.id == held.observationId
    ensures GoodPc(s1, ActSend(held, ask, run))
  {
  }

  lemma SendKeepsGood(s: State, task: TaskId, v: Verdict)
    requires Good(s) && s.lock == Some(task) && task in s.tasks && s.tasks[task].ActSend?
    ensures Good(NextAdvance(s, task, v))
  {
    hide Admissible, GoodDispatches, NextStageRead, NextStagePut, NextApproveCheck, NextActClaim, NextActPrepare;
    var pc := s.tasks[task];
    var s' := NextAdvance(s, task, v);
    SendKeepsDispatches(s, s', Dispatch(pc.held, pc.ask, pc.prepared));
    assert forall id :: Sent(s', id) ==> Sent(s, id) || id == pc.held.id;
  }

  lemma SendKeepsDispatches(s: State, s': State, d: Dispatch)
    requires GoodDispatches(s) && s'.dispatched == s.dispatched + [d]
    requires s' == s.(tasks := s'.tasks, dispatched := s'.dispatched)
    requires Matches(s, d.approval, d.run) && Names(d.ask, d.approval) && d.ask.request in s.receipts
    requires !Sent(s, d.approval.id) && !Requested(s, d.ask.request)
    requires forall i :: 0 <= i < |s.dispatched| ==>
               s.dispatched[i].approval.runId != d.approval.runId || s.dispatched[i].approval.version != d.approval.version
    ensures GoodDispatches(s')
  {
    assert forall a, r :: Matches(s, a, r) == Matches(s', a, r);
  }

  lemma ActedDoesNotMatter(s: State, acted: seq<Acted>)
    requires Good(s)
    ensures Good(s.(acted := acted))
  {
    hide Admissible;
    var s' := s.(acted := acted);
    assert forall id :: Sent(s', id) == Sent(s, id);
    assert forall r :: Requested(s', r) == Requested(s, r);
    assert forall a, r :: Matches(s, a, r) == Matches(s', a, r);
  }

  lemma LookupKeepsGood(s: State, task: TaskId, v: Verdict)
    requires Good(s) && s.lock == Some(task) && task in s.tasks
    requires s.tasks[task].ApproveLookup? || s.tasks[task].ApproveCheck?
    ensures Good(NextAdvance(s, task, v))
  {
    hide Admissible;
    var pc := s.tasks[task];
    ReleaseKeepsGood(s, task);
    if pc.ApproveLookup? {
      if s.slot.Some? && Names(pc.ask, s.slot.value) { GoKeepsGood(s, task, ApproveCheck(s.slot.value, pc.ask)); }
    } else {
      ClearKeepsGood(Release(s, task), Cleared(s.slot, pc.ask.session));
      if Owned(s, pc.held.owner, pc.held.runId) {
        GoKeepsGood(s, task, ActClaim(pc.held, pc.ask));
        ActedDoesNotMatter(Go(s, task, ActClaim(pc.held, pc.ask)), s.acted + [Acted(pc.held, pc.ask)]);
      }
    }
  }

  lemma ClaimKeepsGood(s: State, task: TaskId, v: Verdict)
    requires Good(s) && s.lock == Some(task) && task in s.tasks
    requires s.tasks[task].ActClaim? || s.tasks[task].ApproveClear?
    ensures Good(NextAdvance(s, task, v))
  {
    hide Admissible;
    var pc := s.tasks[task];
    if pc.ApproveClear? {
      var s1 := s.(slot := Cleared(s.slot, pc.ask.session));
      ClearKeepsGood(s, s1.slot);
      ReleaseKeepsGood(s1, task);
    } else {
      GoKeepsGood(s, task, ApproveClear(pc.held, pc.ask));
      if pc.ask.request !in s.receipts {
        ReceiptsKeepGood(s, pc.ask.request);
        var s1 := s.(receipts := s.receipts + {pc.ask.request});
        assert !Sent(s1, pc.held.id) && !Requested(s1, pc.ask.request);
        GoKeepsGood(s1, task, ActPrepare(pc.held, pc.ask));
      }
    }
  }

  lemma StepKeepsGood(s: State, a: Action)
    requires Good(s) && Enabled(s, a)
    ensures Good(Next(s, a))
  {
    hide Admissible, Mutate, GoodPc, GoodSlot, GoodStaging, GoodObservations, GoodDispatches;
    match a
    case Begin(task, first) => WaitKeepsGood(s, task, first);
    case Acquire(task) => AcquireKeepsGood(s, task);
    case Advance(task, v) =>
      var pc := s.tasks[task];
      if pc.StageRead? || pc.StagePut? { StageKeepsGood(s, task, v); }
      else if pc.ActPrepare? { PrepareKeepsGood(s, task, v); }
      else if pc.ActSend? { SendKeepsGood(s, task, v); }
      else if pc.ApproveLookup? || pc.ApproveCheck? { LookupKeepsGood(s, task, v); }
      else { ClaimKeepsGood(s, task, v); }
    case ClearFor(owner) => ClearKeepsGood(s, Cleared(s.slot, owner));
    case Snapshot(owner) => ClearKeepsGood(s, None);
    case Create(runId, owner, native, maxActions) => CreateKeepsGood(s, runId, NewRun(owner, native, maxActions));
    case Claimed(request) => ReceiptsKeepGood(s, request);
    case Mutated(runId, m) => MutatedKeepsGood(s, runId, m);
  }

  lemma WaitKeepsGood(s: State, task: TaskId, pc: Pc)
    requires Good(s) && task !in s.tasks && !Holds(pc)
    ensures Good(Go(s, task, pc))
  {
    hide Admissible;
    var s' := Go(s, task, pc);
    assert forall id :: Sent(s', id) == Sent(s, id);
    assert forall r :: Requested(s', r) == Requested(s, r);
    assert forall a, r :: Matches(s, a, r) == Matches(s', a, r);
  }

  lemma AcquireKeepsGood(s: State, task: TaskId)
    requires Good(s) && Enabled(s, Acquire(task))
    ensures Good(Next(s, Acquire(task)))
  {
  }

  lemma CreateKeepsGood(s: State, runId: RunId, run: Run)
    requires Good(s) && runId !in s.runs && run.observation.None?
    ensures Good(s.(runs := s.runs[runId := run]))
  {
    hide Admissible, GoodPc, GoodSlot, GoodStaging, GoodDispatches;
    RunsKeepGood(s, s.runs[runId := run], s.observed);
  }

  lemma MutatedKeepsGood(s: State, runId: RunId, m: Mutation)
    requires Good(s) && Enabled(s, Mutated(runId, m))
    ensures Good(Next(s, Mutated(runId, m)))
  {
    hide Admissible, Mutate, GoodPc, GoodSlot, GoodStaging, GoodDispatches;
    var s' := Next(s, Mutated(runId, m));
    MutationLaws(s.runs[runId], m);
    ObservationSource(s.runs[runId], m);
    forall r | r in s'.runs && s'.runs[r].observation.Some?
      ensures Seen(s', s'.runs[r].observation.value)
    {
      if r != runId || s'.runs[r].observation == s.runs[r].observation {
        assert Seen(s, s.runs[r].observation.value);
      }
    }
    RunsKeepGood(s, s'.runs, s'.observed);
  }

  lemma {:induction false} RunsAreGood(states: seq<State>, i: nat)
    requires IsRun(states) && i < |states|
    ensures Good(states[i])
  {
    if i > 0 {
      RunsAreGood(states, i - 1);
      assert Step(states[i - 1], states[i - 1 + 1]);
      var a :| Enabled(states[i - 1], a) && states[i] == Next(states[i - 1], a);
      StepKeepsGood(states[i - 1], a);
    }
  }

  // ------------------------------------------------------------- main results

  predicate InAct(pc: Pc) {
    pc.ActClaim? || pc.ActPrepare? || pc.ActSend? || pc.ApproveClear?
  }

  predicate Reached(s: State, id: ApprovalId) {
    exists i :: 0 <= i < |s.acted| && s.acted[i].approval.id == id
  }

  /** No approval reached `act` twice, each was asked for by name, and none of them can be looked up again. */
  predicate ActedOnce(s: State) {
    && (forall i, j :: 0 <= i < j < |s.acted| ==> s.acted[i].approval.id != s.acted[j].approval.id)
    && (forall i :: 0 <= i < |s.acted| ==>
          s.acted[i].approval.id < s.nextApproval && Names(s.acted[i].ask, s.acted[i].approval))
    && (s.slot.Some? && Reached(s, s.slot.value.id) ==>
          s.lock.Some? && s.lock.value in s.tasks && InAct(s.tasks[s.lock.value]))
    && (forall t :: t in s.tasks && s.tasks[t].ApproveCheck? ==> !Reached(s, s.tasks[t].held.id))
  }

  lemma StageKeepsActedOnce(s: State, task: TaskId, v: Verdict)
    requires Good(s) && ActedOnce(s) && s.lock == Some(task) && task in s.tasks
    requires s.tasks[task].StageRead? || s.tasks[task].StagePut?
    ensures ActedOnce(NextAdvance(s, task, v))
  {
    hide ApprovalCopy, GoodPc, GoodSlot, GoodDispatches, GoodObservations, GoodStaging;
  }

  lemma LookupKeepsActedOnce(s: State, task: TaskId, v: Verdict)
    requires Good(s) && ActedOnce(s) && s.lock == Some(task) && task in s.tasks && s.tasks[task].ApproveLookup?
    ensures ActedOnce(NextAdvance(s, task, v))
  {
    hide GoodPc, GoodSlot, GoodDispatches, GoodObservations, GoodStaging;
    hide NextStageRead, NextStagePut, NextApproveCheck, NextActClaim, NextActPrepare;
    var s' := NextAdvance(s, task, v);
    assert forall id :: Reached(s', id) == Reached(s, id);
  }

  lemma CheckKeepsActedOnce(s: State, task: TaskId, v: Verdict)
    requires Good(s) && ActedOnce(s) && s.lock == Some(task) && task in s.tasks && s.tasks[task].ApproveCheck?
    ensures ActedOnce(NextAdvance(s, task, v))
  {
    hide GoodPc, GoodSlot, GoodDispatches, GoodObservations, GoodStaging;
    hide NextStageRead, NextStagePut, NextActClaim, NextActPrepare;
    HeldIsPending(s, task);
  }

  lemma HeldIsPending(s: State, task: TaskId)
    requires Good(s) && s.lock == Some(task) && task in s.tasks && Carries(s.tasks[task])
    ensures Recorded(s, s.tasks[task].held) && SlotIsOrEmpty(s, s.tasks[task].held)
    ensures Names(s.tasks[task].ask, s.tasks[task].held)
  {
    hide Admissible, GoodSlot, GoodDispatches, GoodObservations, GoodStaging;
    assert GoodPc(s, s.tasks[task]);
  }

  lemma ActKeepsActedOnce(s: State, task: TaskId, v: Verdict)
    requires Good(s) && ActedOnce(s) && s.lock == Some(task) && task in s.tasks && InAct(s.tasks[task])
    ensures ActedOnce(NextAdvance(s, task, v))
  {
    hide Mutate, GoodPc, GoodSlot, GoodDispatches, GoodObservations, GoodStaging;
    hide NextStageRead, NextStagePut, NextApproveCheck;
    HeldIsPending(s, task);
  }

  lemma StepKeepsActedOnce(s: State, a: Action)
    requires Good(s) && ActedOnce(s) && Enabled(s, a)
    ensures ActedOnce(Next(s, a))
  {
    hide GoodPc, GoodSlot, GoodDispatches, GoodObservations, GoodStaging, NextAdvance, Apply;
    if a.Advance? {
      var pc := s.tasks[a.task];
      if pc.StageRead? || pc.StagePut? { StageKeepsActedOnce(s, a.task, a.verdict); }
      else if pc.ApproveLookup? { LookupKeepsActedOnce(s, a.task, a.verdict); }
      else if pc.ApproveCheck? { CheckKeepsActedOnce(s, a.task, a.verdict); }
      else { ActKeepsActedOnce(s, a.task, a.verdict); }
    }
  }

  lemma NoneActedYet(s: State)
    requires Init(s)
    ensures ActedOnce(s)
  {
  }

  /** In every run each approval id is handed to `act` at most once, whether or not `act` goes on to send it. */
  lemma {:induction false} ReachesActOnce(states: seq<State>, n: nat)
    requires IsRun(states) && n < |states|
    ensures ActedOnce(states[n])
  {
    hide Good, ActedOnce, Next, Enabled;
    if n == 0 {
      NoneActedYet(states[0]);
    } else {
      ReachesActOnce(states, n - 1);
      RunsAreGood(states, n - 1);
      assert Step(states[n - 1], states[n - 1 + 1]);
      var a :| Enabled(states[n - 1], a) && states[n] == Next(states[n - 1], a);
      StepKeepsActedOnce(states[n - 1], a);
    }
  }

  /**
   * In every run every approval id, every request id and every version of a run reaches the
   * backend at most once.
   */
  lemma OneUse(states: seq<State>, n: nat, i: nat, j: nat)
    requires IsRun(states) && n < |states| && i < |states[n].dispatched| && j < |states[n].dispatched|
    requires var d := states[n].dispatched;
             || d[i].approval.id == d[j].approval.id
             || d[i].ask.request == d[j].ask.request
             || (d[i].approval.runId == d[j].approval.runId && d[i].approval.version == d[j].approval.version)
    ensures i == j
  {
    RunsAreGood(states, n);
  }

  /**
   * Every dispatch is exactly what was staged under its id: same owner, run, version, observation
   * and action. The run was ready at that version with that observation when the action was
   * prepared, and the action was admissible against that very observation.
   */
  lemma ExactUse(states: seq<State>, n: nat, i: nat)
    requires IsRun(states) && n < |states| && i < |states[n].dispatched|
    ensures var s := states[n];
            var d := s.dispatched[i];
            && d.approval.id in s.staged && s.staged[d.approval.id].approval == d.approval
            && d.run.owner == d.approval.owner && d.run.state.Ready? && d.run.version == d.approval.version
            && d.run.observation == Some(s.staged[d.approval.id].observation)
            && d.run.observation.value.id == d.approval.observationId
            && Admissible(d.run.observation.value, d.approval.action)
  {
    hide Admissible;
    RunsAreGood(states, n);
    var s := states[n];
    assert Matches(s, s.dispatched[i].approval, s.dispatched[i].run);
  }

  /**
   * In every run whatever is handed to `act` or sent was asked for by the session that staged it,
   * under the id it was staged as.
   */
  lemma AskedByItsOwner(states: seq<State>, n: nat)
    requires IsRun(states) && n < |states|
    ensures forall i :: 0 <= i < |states[n].acted| ==> Names(states[n].acted[i].ask, states[n].acted[i].approval)
    ensures forall i :: 0 <= i < |states[n].dispatched| ==>
              Names(states[n].dispatched[i].ask, states[n].dispatched[i].approval)
  {
    hide Names;
    ReachesActOnce(states, n);
    RunsAreGood(states, n);
  }

  /** An approval that left the slot and that no approve call holds. */
  predicate Retired(s: State, id: ApprovalId) {
    && (s.slot.Some? ==> s.slot.value.id != id)
    && (forall t :: t in s.tasks && Carries(s.tasks[t]) ==> s.tasks[t].held.id != id)
  }

  /**
   * An approval whose action is not already on its way to the backend, and which is retired or
   * names a version its run has left: paused, taken over, stopped, observed again or acted on.
   */
  predicate Dead(s: State, id: ApprovalId) {
    && id in s.staged
    && (forall t :: t in s.tasks && s.tasks[t].ActSend? ==> s.tasks[t].held.id != id)
    && (Retired(s, id) || Spent(s, s.staged[id].approval))
  }

  lemma DeadStaysDead(s: State, a: Action, id: ApprovalId)
    requires Good(s) && Enabled(s, a) && Dead(s, id)
    ensures Dead(Next(s, a), id) && Sent(Next(s, a), id) == Sent(s, id)
  {
    hide Admissible, Mutate, ApprovalCopy, GoodObservations, GoodDispatches, GoodPc, GoodSlot, NextAdvance;
    if a.Advance? {
      DeadAdvances(s, a.task, a.verdict, id);
    } else {
      if a.Mutated? { MutationLaws(s.runs[a.runId], a.mutation); }
      assert Next(s, a).dispatched == s.dispatched;
    }
  }

  /** A step of one task that keeps runs and does not put `id` back in play keeps it dead. */
  lemma DeadFrame(s: State, s': State, task: TaskId, id: ApprovalId)
    requires Dead(s, id) && s'.runs == s.runs && id in s'.staged && s'.staged[id] == s.staged[id]
    requires s'.slot.None? || s'.slot == s.slot || s'.slot.value.id != id
    requires forall t :: t in s'.tasks && t != task ==> t in s.tasks && s'.tasks[t] == s.tasks[t]
    requires task in s'.tasks ==> !s'.tasks[task].ActSend?
    requires task in s'.tasks && Carries(s'.tasks[task]) && Retired(s, id) ==> s'.tasks[task].held.id != id
    ensures Dead(s', id)
  {
  }

  lemma DeadAdvances(s: State, task: TaskId, v: Verdict, id: ApprovalId)
    requires Good(s) && Enabled(s, Advance(task, v)) && Dead(s, id)
    ensures Dead(NextAdvance(s, task, v), id) && Sent(NextAdvance(s, task, v), id) == Sent(s, id)
  {
    hide Mutate, ApprovalCopy, Good, NextStageRead, NextStagePut, NextApproveCheck, NextActClaim, NextActPrepare;
    hide Dead, Sent, Retired;
    DeadHasNoSend(s, task, id);
    match s.tasks[task]
    case StageRead(call) => DeadAtStage(s, task, v, id);
    case StagePut(call, seen) => DeadAtStage(s, task, v, id);
    case ActPrepare(held, ask) => DeadIsNotPrepared(s, task, v, id);
    case ActSend(held, ask, prepared) => DeadAtSend(s, task, v, id);
    case ApproveCheck(held, ask) => DeadAtCheck(s, task, v, id);
    case ActClaim(held, ask) => DeadAtCheck(s, task, v, id);
    case _ => DeadAtSlot(s, task, v, id);
  }

  lemma DeadAtStage(s: State, task: TaskId, v: Verdict, id: ApprovalId)
    requires Good(s) && Enabled(s, Advance(task, v)) && Dead(s, id)
    requires s.tasks[task].StageRead? || s.tasks[task].StagePut?
    ensures Dead(NextAdvance(s, task, v), id) && Sent(NextAdvance(s, task, v), id) == Sent(s, id)
  {
    hide Mutate, ApprovalCopy, GoodPc, GoodSlot, GoodObservations, GoodDispatches, Admissible, Dead, Spent;
    DeadHasNoSend(s, task, id);
    DeadFrame(s, NextAdvance(s, task, v), task, id);
    assert NextAdvance(s, task, v).dispatched == s.dispatched;
  }

  lemma DeadAtSend(s: State, task: TaskId, v: Verdict, id: ApprovalId)
    requires Enabled(s, Advance(task, v)) && Dead(s, id) && s.tasks[task].ActSend?
    ensures Dead(NextAdvance(s, task, v), id) && Sent(NextAdvance(s, task, v), id) == Sent(s, id)
  {
    hide Dead, Spent;
    DeadHasNoSend(s, task, id);
    var s' := NextAdvance(s, task, v);
    DeadFrame(s, s', task, id);
    assert forall i :: 0 <= i < |s.dispatched| ==> s'.dispatched[i] == s.dispatched[i];
  }

  lemma DeadAtSlot(s: State, task: TaskId, v: Verdict, id: ApprovalId)
    requires Enabled(s, Advance(task, v)) && Dead(s, id)
    requires s.tasks[task].ApproveLookup? || s.tasks[task].ApproveClear?
    ensures Dead(NextAdvance(s, task, v), id) && Sent(NextAdvance(s, task, v), id) == Sent(s, id)
  {
    hide NextApproveCheck, NextActClaim, NextActPrepare, NextStageRead, NextStagePut, Dead, Spent;
    DeadHasNoSend(s, task, id);
    DeadFrame(s, NextAdvance(s, task, v), task, id);
    assert NextAdvance(s, task, v).dispatched == s.dispatched;
  }

  lemma DeadAtCheck(s: State, task: TaskId, v: Verdict, id: ApprovalId)
    requires Enabled(s, Advance(task, v)) && Dead(s, id)
    requires s.tasks[task].ApproveCheck? || s.tasks[task].ActClaim?
    ensures Dead(NextAdvance(s, task, v), id) && Sent(NextAdvance(s, task, v), id) == Sent(s, id)
  {
    hide NextActPrepare, NextStageRead, NextStagePut, Dead, Spent;
    DeadHasNoSend(s, task, id);
    DeadFrame(s, NextAdvance(s, task, v), task, id);
    assert NextAdvance(s, task, v).dispatched == s.dispatched;
  }

  lemma DeadHasNoSend(s: State, task: TaskId, id: ApprovalId)
    requires Dead(s, id) && task in s.tasks
    ensures id in s.staged
    ensures s.tasks[task].ActSend? ==> s.tasks[task].held.id != id
  {
  }

  lemma DeadIsNotPrepared(s: State, task: TaskId, v: Verdict, id: ApprovalId)
    requires Good(s) && Enabled(s, Advance(task, v)) && Dead(s, id) && s.tasks[task].ActPrepare?
    ensures Dead(NextAdvance(s, task, v), id) && Sent(NextAdvance(s, task, v), id) == Sent(s, id)
  {
    hide Admissible, Mutate, ApprovalCopy, GoodObservations, GoodDispatches, GoodSlot, GoodStaging;
    var pc := s.tasks[task];
    assert GoodPc(s, pc);
    var run := s.runs[pc.held.runId];
    var m := PrepareAct(pc.held.version, pc.held.observationId, v.overLimit, v.permitted);
    MutationLaws(run, m);
    if Mutate(run, m).Some? && Mutate(run, m).value.state.Acting? { PrepareConsumesVersion(run, m); }
    assert NextAdvance(s, task, v).dispatched == s.dispatched;
  }

  /**
   * A dead approval never comes back: once it was cleared, discarded, replaced or used up, or its
   * run moved on, no later state of the run has dispatched it unless that had already happened.
   */
  lemma {:induction false} DeadIsNeverSent(states: seq<State>, n: nat, m: nat, id: ApprovalId)
    requires IsRun(states) && n <= m < |states| && Dead(states[n], id)
    ensures Dead(states[m], id) && Sent(states[m], id) == Sent(states[n], id)
  {
    hide Dead, Sent, Good, Next, Enabled;
    if n < m {
      DeadIsNeverSent(states, n, m - 1, id);
      RunsAreGood(states, m - 1);
      assert Step(states[m - 1], states[m - 1 + 1]);
      var a :| Enabled(states[m - 1], a) && states[m] == Next(states[m - 1], a);
      DeadStaysDead(states[m - 1], a, id);
    }
  }

  // --------------------------------------------------------- undisturbed calls

  /** Up to `n` consecutive steps of one call; a call that ended takes no further step. */
  function Solo(s: State, task: TaskId, n: nat): State
    decreases n
  {
    if n == 0 || task !in s.tasks || !Holds(s.tasks[task]) then s
    else Solo(NextAdvance(s, task, Verdict(true, true, false, true)), task, n - 1)
  }

  /** A call that finds the lock free and runs to its end undisturbed. */
  function Call(s: State, task: TaskId, first: Pc): State
    requires task !in s.tasks && s.lock.None? && !Holds(first)
  {
    Solo(Next(Next(s, Begin(task, first)), Acquire(task)), task, 6)
  }

  /** What stage checks before it looks at the slot. */
  ghost predicate Presentable(runs: map<RunId, Run>, call: StageCall) {
    && call.valid && call.runId in runs && runs[call.runId].owner == call.owner
    && var run := runs[call.runId];
       && run.state.Ready? && run.version == call.version
       && run.observation.Some? && run.observation.value.id == call.observationId
       && Admissible(run.observation.value, call.action)
  }

  lemma StageReads(s: State, task: TaskId, call: StageCall)
    ensures NextStageRead(s, task, call, Verdict(true, true, false, true)) ==
            if Presentable(s.runs, call) then Go(s, task, StagePut(call, s.runs[call.runId].observation.value))
            else Release(s, task)
  {
    hide Admissible, ApprovalCopy;
    if Owned(s, call.owner, call.runId) && s.runs[call.runId].observation.Some? {
      ApprovalCopyIsExact(s.runs[call.runId].observation.value, call.action);
    }
  }

  /** An undisturbed stage call fills the slot under a new id exactly when the checks pass, and otherwise changes nothing. */
  lemma StageStages(s: State, task: TaskId, call: StageCall)
    requires s.lock.None? && task !in s.tasks
    ensures Call(s, task, StageWait(call)) ==
            if s.slot.Some? || !Presentable(s.runs, call) then s
            else
              var put := Approval(s.nextApproval, call.owner, call.runId, call.version, call.observationId, call.action);
              s.(slot := Some(put), nextApproval := s.nextApproval + 1,
                 staged := s.staged[put.id := Staging(put, s.runs[call.runId].observation.value)])
  {
    hide Presentable, Solo, NextStageRead;
    var s2 := Next(Next(s, Begin(task, StageWait(call))), Acquire(task));
    SoloStep(s2, task, 6);
    StageReads(s2, task, call);
    assert s2.tasks - {task} == s.tasks;
    if Presentable(s.runs, call) {
      var seen := StagedView(s, call);
      var s3 := Go(s2, task, StagePut(call, seen));
      StagePutEnds(s3, task, call, seen);
      assert s3.tasks - {task} == s.tasks;
    } else {
      SoloEnds(Release(s2, task), task, 5);
    }
  }

  lemma StagedView(s: State, call: StageCall) returns (seen: Observation)
    requires Presentable(s.runs, call)
    ensures call.runId in s.runs && s.runs[call.runId].observation == Some(seen)
  {
    seen := s.runs[call.runId].observation.value;
  }

  lemma StagePutEnds(s: State, task: TaskId, call: StageCall, seen: Observation)
    requires task in s.tasks && s.tasks[task] == StagePut(call, seen)
    ensures Solo(s, task, 5) == NextStagePut(s, task, call, seen)
  {
    hide Solo, NextAdvance, NextStagePut;
    SoloStep(s, task, 5);
    PutIsLast(s, task, call, seen);
    SoloEnds(NextStagePut(s, task, call, seen), task, 4);
  }

  lemma PutIsLast(s: State, task: TaskId, call: StageCall, seen: Observation)
    requires task in s.tasks && s.tasks[task] == StagePut(call, seen)
    ensures NextAdvance(s, task, Verdict(true, true, false, true)) == NextStagePut(s, task, call, seen)
    ensures task !in NextStagePut(s, task, call, seen).tasks
  {
    hide NextStageRead, NextApproveCheck, NextActClaim, NextActPrepare;
  }

  /** What approve and the service check before an action is sent. */
  predicate Sendable(s: State, ask: Ask) {
    && s.slot.Some? && Names(ask, s.slot.value) && ask.request !in s.receipts
    && Owned(s, s.slot.value.owner, s.slot.value.runId)
    && Actionable(s.runs[s.slot.value.runId], s.slot.value)
  }

  predicate Fresh(run: Run, a: Approval) {
    run.version == a.version && run.observation.Some? && run.observation.value.id == a.observationId
  }

  predicate Actionable(run: Run, a: Approval) {
    && Fresh(run, a) && run.state.Ready? && run.actions < run.maxActions
    && run.grant.Some? && !run.grant.value.revoked && run.grant.value.uses != Some(0)
  }

  /**
   * An undisturbed approve sends the staged approval, once, exactly when the checks pass. Whether or
   * not it sends, it empties the slot if the approval was asked for by name and its run exists.
   */
  lemma ApproveSendsExactly(s: State, task: TaskId, ask: Ask)
    requires s.lock.None? && task !in s.tasks
    ensures var s' := Call(s, task, ApproveWait(ask));
            && s'.dispatched == (if Sendable(s, ask) then s.dispatched + [Dispatch(s.slot.value, ask, s.runs[s.slot.value.runId])]
                                 else s.dispatched)
            && s'.slot == (if s.slot.Some? && Names(ask, s.slot.value) && Owned(s, ask.session, s.slot.value.runId) then None
                           else s.slot)
            && s'.lock.None? && task !in s'.tasks
  {
    hide NextAdvance, Solo;
    if s.slot.None? || !Names(ask, s.slot.value) {
      ForeignApproveDoesNothing(s, task, ask);
    } else {
      var a := s.slot.value;
      var s2 := Next(Next(s, Begin(task, ApproveWait(ask))), Acquire(task));
      SoloStep(s2, task, 6);
      LookupFinds(s2, task, a, ask);
      if !Owned(s, ask.session, a.runId) {
        UnownedApproveEnds(Go(s2, task, ApproveCheck(a, ask)), task, a, ask);
      } else if !Fresh(s.runs[a.runId], a) {
        StaleApproveClears(s, task, ask);
      } else if ask.request in s.receipts {
        RepeatedApproveEnds(Go(s2, task, ApproveCheck(a, ask)), task, a, ask);
      } else {
        var s5 := Go(s2, task, ActPrepare(a, ask)).(
          receipts := s2.receipts + {ask.request}, acted := s.acted + [Acted(a, ask)]);
        SoloToPrepare(s2, task, a, ask);
        SoloFromPrepare(s5, task, a, ask);
      }
    }
  }

  lemma UnownedApproveEnds(s: State, task: TaskId, a: Approval, ask: Ask)
    requires task in s.tasks && s.tasks[task] == ApproveCheck(a, ask) && !Owned(s, ask.session, a.runId)
    ensures Solo(s, task, 5) == Release(s, task)
  {
    SoloStep(s, task, 5);
    SoloEnds(Release(s, task), task, 4);
  }

  lemma RepeatedApproveEnds(s: State, task: TaskId, a: Approval, ask: Ask)
    requires task in s.tasks && s.tasks[task] == ApproveCheck(a, ask) && Names(ask, a) && s.slot == Some(a)
    requires Owned(s, a.owner, a.runId) && Fresh(s.runs[a.runId], a) && ask.request in s.receipts
    ensures var s' := Solo(s, task, 5);
            s'.slot.None? && s'.lock.None? && task !in s'.tasks && s'.dispatched == s.dispatched
  {
    hide NextAdvance, Solo;
    var s2 := Go(s, task, ActClaim(a, ask)).(acted := s.acted + [Acted(a, ask)]);
    SoloStep(s, task, 5);
    CheckPasses(s, task, a, ask);
    SoloStep(s2, task, 4);
    ClaimIsRefused(s2, task, a, ask);
    ClearEnds(Go(s2, task, ApproveClear(a, ask)), task, a, ask, 3);
  }

  lemma ClaimIsRefused(s: State, task: TaskId, a: Approval, ask: Ask)
    requires task in s.tasks && s.tasks[task] == ActClaim(a, ask) && ask.request in s.receipts
    ensures NextAdvance(s, task, Verdict(true, true, false, true)) == Go(s, task, ApproveClear(a, ask))
  {
  }

  lemma ClearEnds(s: State, task: TaskId, a: Approval, ask: Ask, n: nat)
    requires n > 0 && task in s.tasks && s.tasks[task] == ApproveClear(a, ask) && Names(ask, a) && s.slot == Some(a)
    ensures Solo(s, task, n) == Release(s, task).(slot := None)
  {
    SoloStep(s, task, n);
    SoloEnds(Release(s, task).(slot := None), task, n - 1);
  }

  /** An undisturbed approve of an approval whose run moved on sends nothing and empties the slot. */
  lemma StaleApproveClears(s: State, task: TaskId, ask: Ask)
    requires s.lock.None? && task !in s.tasks && s.slot.Some? && Names(ask, s.slot.value)
    requires Owned(s, s.slot.value.owner, s.slot.value.runId)
    requires var run, a := s.runs[s.slot.value.runId], s.slot.value;
             run.version != a.version || run.observation.None? || run.observation.value.id != a.observationId
    ensures var a := s.slot.value;
            var s' := Call(s, task, ApproveWait(ask));
            s'.slot.None? && s'.lock.None? && task !in s'.tasks && s'.dispatched == s.dispatched && s'.runs == s.runs
  {
  }

  /** An undisturbed approve by another session, or of another id, leaves everything as it was. */
  lemma ForeignApproveDoesNothing(s: State, task: TaskId, ask: Ask)
    requires s.lock.None? && task !in s.tasks
    requires s.slot.Some? ==> !Names(ask, s.slot.value)
    ensures Call(s, task, ApproveWait(ask)) == s
  {
    var s2 := Next(Next(s, Begin(task, ApproveWait(ask))), Acquire(task));
    SoloStep(s2, task, 6);
    assert NextAdvance(s2, task, Verdict(true, true, false, true)) == Release(s2, task);
    assert Release(s2, task).tasks == s.tasks;
    SoloEnds(s, task, 5);
  }

  /**
   * A discard by the approval's owner, and a snapshot by any other session, empties the slot. If no
   * approve call holds the approval it is then dead. A discard by another session and a snapshot by
   * the owner leave the slot alone.
   */
  lemma DiscardRetires(s: State, a: Action)
    requires Good(s) && s.slot.Some? && (a.ClearFor? || a.Snapshot?)
    ensures var id := s.slot.value.id;
            if a.ClearFor? <==> a.owner == s.slot.value.owner then
              && Next(s, a) == s.(slot := None)
              && ((forall t :: t in s.tasks && Carries(s.tasks[t]) ==> s.tasks[t].held.id != id) ==>
                    Retired(Next(s, a), id) && Dead(Next(s, a), id))
            else Next(s, a) == s
  {
    hide GoodPc, GoodDispatches, GoodObservations, GoodStaging;
  }

  /** An operator who steps in on the run kills its approval, unless the action is already on its way. */
  lemma ControlKillsApproval(s: State, m: Mutation)
    requires Good(s) && s.slot.Some? && s.slot.value.runId in s.runs
    requires m.Pause? || m.TakeOver? || m.Cancel?
    requires var run := s.runs[s.slot.value.runId]; ControlAdmitted(run, m) && Fresh(run, s.slot.value) && run.state.Ready?
    requires forall t :: t in s.tasks && s.tasks[t].ActSend? ==> s.tasks[t].held.id != s.slot.value.id
    ensures Dead(Next(s, Mutated(s.slot.value.runId, m)), s.slot.value.id)
  {
    hide Apply, GoodPc, GoodDispatches, GoodObservations, GoodStaging;
    var run := s.runs[s.slot.value.runId];
    OperatorControl(run, m);
    MutationLaws(run, m);
  }

  /**
   * When the run's backend is not attached, stage and approve end with nothing changed; when no
   * receipt can be written, approve goes on to clear the slot and sends nothing.
   */
  lemma RefusedByTheService(s: State, task: TaskId, v: Verdict)
    requires task in s.tasks && Holds(s.tasks[task])
    ensures !v.attached && (s.tasks[task].StageRead? || s.tasks[task].ApproveCheck?) ==>
              NextAdvance(s, task, v) == Release(s, task)
    ensures !v.claimed && s.tasks[task].ActClaim? ==>
              var pc := s.tasks[task];
              NextAdvance(s, task, v) == Go(s, task, ApproveClear(pc.held, pc.ask))
  {
    hide NextActPrepare, NextStagePut;
  }

  /** A request id the service has seen from anyone sends nothing. */
  lemma ClaimedElsewhere(s: State, task: TaskId, ask: Ask)
    requires s.lock.None? && task !in s.tasks
    ensures Call(Next(s, Claimed(ask.request)), task, ApproveWait(ask)).dispatched == s.dispatched
  {
    ApproveSendsExactly(Next(s, Claimed(ask.request)), task, ask);
  }

  /** A service that created one run, authorized it and observed its target. */
  function ObservedState(owner: Session, maxActions: nat, o: Observation): State {
    var s0 := State(None, None, map[], map[], {}, 0, map[], map[], [], []);
    var s1 := Next(s0, Create(0, owner, false, maxActions));
    var s3 := Next(Next(s1, Mutated(0, Authorize(1, None, true))), Mutated(0, BeginObserve(2, false, true)));
    Next(s3, Mutated(0, CommitObservation(o, false, true)))
  }

  lemma RunIsObserved(owner: Session, maxActions: nat, o: Observation)
    requires maxActions > 0
    ensures var s := ObservedState(owner, maxActions, o);
            && s.slot.None? && s.lock.None? && s.tasks == map[] && s.receipts == {} && s.dispatched == [] && s.nextApproval == 0
            && s.runs == map[0 := Run(owner, false, Ready, 4, Some(o), AgentOwned, 0, 0, maxActions, Some(Grant(None, false)))]
  {
    hide Apply;
    ObservedRun(owner, false, maxActions, None, o);
  }

  /**
   * From an empty service: create, authorize, observe, stage, approve. Exactly the staged action is
   * sent, once, if it was admissible against what was observed, and nothing otherwise.
   */
  lemma EndToEnd(owner: Session, maxActions: nat, o: Observation, action: ComputerAction, task: TaskId, request: RequestId)
    requires maxActions > 0
    ensures var s := ObservedState(owner, maxActions, o);
            && s.lock.None? && s.tasks == map[]
            && var staged := Call(s, task, StageWait(StageCall(owner, 0, 4, o.id, action, true)));
               && staged.lock.None? && staged.tasks == map[]
               && var sent := Call(staged, task, ApproveWait(Ask(owner, 0, request))).dispatched;
                  if !Admissible(o, action) then sent == []
                  else |sent| == 1 && sent[0].approval == Approval(0, owner, 0, 4, o.id, action)
  {
    hide Admissible, Call, ObservedState;
    RunIsObserved(owner, maxActions, o);
    var s := ObservedState(owner, maxActions, o);
    var call := StageCall(owner, 0, 4, o.id, action, true);
    StageStages(s, task, call);
    ApproveSendsExactly(Call(s, task, StageWait(call)), task, Ask(owner, 0, request));
  }

  lemma SoloEnds(s: State, task: TaskId, n: nat)
    requires task !in s.tasks
    ensures Solo(s, task, n) == s
  {
  }

  lemma SoloStep(s: State, task: TaskId, n: nat)
    requires n > 0 && task in s.tasks && Holds(s.tasks[task])
    ensures Solo(s, task, n) == Solo(NextAdvance(s, task, Verdict(true, true, false, true)), task, n - 1)
  {
  }

  lemma SoloToPrepare(s: State, task: TaskId, a: Approval, ask: Ask)
    requires task in s.tasks && s.tasks[task] == ApproveLookup(ask)
    requires s.slot == Some(a) && Names(ask, a) && ask.request !in s.receipts && Owned(s, a.owner, a.runId)
    requires s.runs[a.runId].version == a.version
    requires s.runs[a.runId].observation.Some? && s.runs[a.runId].observation.value.id == a.observationId
    ensures var prepared := Go(s, task, ActPrepare(a, ask)).(receipts := s.receipts + {ask.request}, acted := s.acted + [Acted(a, ask)]);
            Solo(s, task, 6) == Solo(prepared, task, 3)
  {
    hide NextAdvance, Solo;
    var s1 := Go(s, task, ApproveCheck(a, ask));
    var s2 := Go(s1, task, ActClaim(a, ask)).(acted := s.acted + [Acted(a, ask)]);
    var s3 := Go(s2, task, ActPrepare(a, ask)).(receipts := s.receipts + {ask.request});
    SoloStep(s, task, 6);
    LookupFinds(s, task, a, ask);
    SoloStep(s1, task, 5);
    CheckPasses(s1, task, a, ask);
    SoloStep(s2, task, 4);
    ClaimSucceeds(s2, task, a, ask);
    assert s1.tasks[task := ActClaim(a, ask)][task := ActPrepare(a, ask)] == s.tasks[task := ActPrepare(a, ask)];
  }

  lemma LookupFinds(s: State, task: TaskId, a: Approval, ask: Ask)
    requires task in s.tasks && s.tasks[task] == ApproveLookup(ask) && s.slot == Some(a) && Names(ask, a)
    ensures NextAdvance(s, task, Verdict(true, true, false, true)) == Go(s, task, ApproveCheck(a, ask))
  {
  }

  lemma CheckPasses(s: State, task: TaskId, a: Approval, ask: Ask)
    requires task in s.tasks && s.tasks[task] == ApproveCheck(a, ask) && Names(ask, a) && Owned(s, a.owner, a.runId)
    requires s.runs[a.runId].version == a.version
    requires s.runs[a.runId].observation.Some? && s.runs[a.runId].observation.value.id == a.observationId
    ensures NextAdvance(s, task, Verdict(true, true, false, true))
         == Go(s, task, ActClaim(a, ask)).(acted := s.acted + [Acted(a, ask)])
  {
  }

  lemma ClaimSucceeds(s: State, task: TaskId, a: Approval, ask: Ask)
    requires task in s.tasks && s.tasks[task] == ActClaim(a, ask) && ask.request !in s.receipts
    ensures NextAdvance(s, task, Verdict(true, true, false, true))
         == Go(s, task, ActPrepare(a, ask)).(receipts := s.receipts + {ask.request})
  {
  }

  lemma SoloFromPrepare(s: State, task: TaskId, a: Approval, ask: Ask)
    requires task in s.tasks && s.tasks[task] == ActPrepare(a, ask) && Names(ask, a) && a.runId in s.runs && s.slot == Some(a)
    ensures var s' := Solo(s, task, 3);
            && s'.slot.None? && s'.lock.None? && task !in s'.tasks
            && s'.dispatched == (if Actionable(s.runs[a.runId], a) then s.dispatched + [Dispatch(a, ask, s.runs[a.runId])]
                                 else s.dispatched)
  {
    hide NextStageRead, NextStagePut, NextApproveCheck, NextActClaim, Solo, Mutate;
    var v := Verdict(true, true, false, true);
    PrepareAdmitsExactly(s.runs[a.runId], PrepareAct(a.version, a.observationId, false, true));
    var s1 := NextActPrepare(s, task, a, ask, v);
    SoloStep(s, task, 3);
    if Actionable(s.runs[a.runId], a) {
      assert s1.tasks[task] == ActSend(a, ask, s.runs[a.runId]);
      SoloStep(s1, task, 2);
      ClearEnds(NextAdvance(s1, task, v), task, a, ask, 1);
    } else {
      assert s1.tasks[task] == ApproveClear(a, ask);
      ClearEnds(s1, task, a, ask, 2);
    }
  }
}
