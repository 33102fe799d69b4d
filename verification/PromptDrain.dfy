/**
 * Draining the queue of one session into a turn: the desktop's drain loop over the bridge's queue
 * and turn slot. A drain takes a batch and reserves the turn slot in one bridge call, tries to
 * start the turn, and hands batch and slot back when anything stops it short. Queue edits, other
 * turns, other reservations and reservation expiry happen between any two of its steps.
 */
module PromptDrain {

  import opened Wrappers
  import opened PromptQueue
  import opened Whitespace

  type TaskId = nat

  datatype Owner = Drain(number: nat) | Other(number: nat)

  /**
   * Where a drain stands: about to call the bridge, about to start the turn, waiting on the turn
   * and the calls after it, or in the final block with something to hand back. `ran` records that
   * the turn had started.
   */
  datatype Pc =
    | Taking
    | Sending(entries: seq<Entry>, owner: nat)
    | Running(entries: seq<Entry>, owner: nat)
    | Restoring(entries: seq<Entry>, owner: nat, ran: bool)

  function Held(pc: Pc): seq<Entry> {
    if pc.Taking? then [] else pc.entries
  }

  /** `active` is the session's membership in the set of running drains. The last six fields are history. */
  datatype State = State(
    queue: seq<Entry>,
    slot: Option<Owner>,
    turn: bool,
    active: bool,
    tasks: map<TaskId, Pc>,
    nextOwner: nat,
    nextId: EntryId,
    submitted: set<EntryId>,
    removed: set<EntryId>,
    unrestored: set<EntryId>,
    repeated: set<EntryId>,
    dropped: seq<Entry>,
    stuck: set<nat>)

  datatype Action =
    | Start(task: TaskId)
    | Take(task: TaskId, ok: bool)
    | Refuse(task: TaskId)
    | Prompted(task: TaskId)
    | Settle(task: TaskId, ok: bool)
    | Restore(task: TaskId, ok: bool)
    | Add(entry: Entry, front: bool)
    | Remove(index: nat)
    | Rewrite(queue: seq<Entry>)
    | Expire
    | Reserve(number: nat)
    | Release
    | OtherTurn
    | EndTurn

  ghost predicate Init(s: State) {
    && s.queue == [] && s.slot.None? && !s.active && s.tasks == map[] && s.nextId == 0
    && s.submitted == {} && s.removed == {} && s.unrestored == {} && s.repeated == {} && s.dropped == [] && s.stuck == {}
  }

  function Ids(entries: seq<Entry>): set<EntryId> {
    set i | 0 <= i < |entries| :: entries[i].id
  }

  predicate Distinct(entries: seq<Entry>) {
    forall i, j :: 0 <= i < j < |entries| ==> entries[i].id != entries[j].id
  }

  predicate NoneBlank(entries: seq<Entry>) {
    forall i :: 0 <= i < |entries| ==> !BridgeBlank(entries[i].text)
  }

  predicate Enabled(s: State, a: Action) {
    match a
    case Start(task) => task !in s.tasks
    case Take(task, _) => task in s.tasks && s.tasks[task].Taking?
    case Refuse(task) => task in s.tasks && s.tasks[task].Sending?
    case Prompted(task) =>
      task in s.tasks && s.tasks[task].Sending? && s.slot == Some(Drain(s.tasks[task].owner)) && !s.turn
    case Settle(task, _) => task in s.tasks && s.tasks[task].Running?
    case Restore(task, _) => task in s.tasks && s.tasks[task].Restoring?
    case Add(entry, _) => entry.id == s.nextId && !BridgeBlank(entry.text)
    case Remove(index) => index < |s.queue|
    case Rewrite(queue) => Distinct(queue) && Ids(queue) == Ids(s.queue) && NoneBlank(queue)
    case Reserve(_) => s.slot.None? && !s.turn
    case Release => s.slot.Some? && s.slot.value.Other?
    case OtherTurn => s.slot.None? && !s.turn
    case Expire => s.slot.Some? && s.slot.value.Drain?
    case EndTurn => s.turn
  }

  function Done(s: State, task: TaskId): State {
    s.(tasks := s.tasks - {task}, active := false)
  }

  /** `session_queue_take_next`, and the desktop's decision about the batch. */
  function NextTake(s: State, task: TaskId): State {
    if s.turn || s.slot.Some? || s.queue == [] then Done(s, task)
    else
      var batch, owner := Taken(s.queue), s.nextOwner;
      var s1 := s.(queue := Left(s.queue), slot := Some(Drain(owner)), nextOwner := s.nextOwner + 1);
      if DesktopBlank(Join(batch)) then
        s1.(tasks := s.tasks[task := Restoring([], owner, false)], dropped := s.dropped + batch)
      else s1.(tasks := s.tasks[task := Sending(batch, owner)])
  }

  /** `session_queue_restore_drain`, in the drain's final block. */
  function NextRestore(s: State, task: TaskId, pc: Pc, ok: bool): State
    requires pc.Restoring?
  {
    if !ok then
      Done(s, task).(
        unrestored := s.unrestored + Ids(pc.entries),
        stuck := s.stuck + {pc.owner})
    else
      Done(s, task).(
        queue := Bumped(pc.entries) + s.queue,
        slot := if s.slot == Some(Drain(pc.owner)) then None else s.slot,
        repeated := if pc.ran then s.repeated + Ids(pc.entries) else s.repeated)
  }

  function Next(s: State, a: Action): State
    requires Enabled(s, a)
  {
    match a
    case Start(task) => if s.active then s else s.(active := true, tasks := s.tasks[task := Taking])
    case Take(task, ok) => if ok then NextTake(s, task) else Done(s, task)
    case Refuse(task) =>
      var pc := s.tasks[task];
      s.(tasks := s.tasks[task := Restoring(pc.entries, pc.owner, false)])
    case Prompted(task) =>
      var pc := s.tasks[task];
      s.(tasks := s.tasks[task := Running(pc.entries, pc.owner)],
         slot := None,
         turn := true,
         submitted := s.submitted + Ids(pc.entries))
    case Settle(task, ok) =>
      var pc := s.tasks[task];
      if ok then Done(s, task) else s.(tasks := s.tasks[task := Restoring(pc.entries, pc.owner, true)])
    case Restore(task, ok) => NextRestore(s, task, s.tasks[task], ok)
    case Add(entry, front) =>
      s.(queue := if front then [entry] + s.queue else s.queue + [entry], nextId := s.nextId + 1)
    case Remove(index) =>
      s.(queue := s.queue[..index] + s.queue[index + 1..], removed := s.removed + {s.queue[index].id})
    case Rewrite(queue) => s.(queue := queue)
    case Expire => s.(slot := None)
    case Reserve(number) => s.(slot := Some(Other(number)))
    case Release => s.(slot := None)
    case OtherTurn => s.(turn := true)
    case EndTurn => s.(turn := false)
  }

  ghost predicate Step(s: State, s': State) {
    exists a :: Enabled(s, a) && s' == Next(s, a)
  }

  ghost predicate IsRun(states: seq<State>) {
    && |states| > 0
    && Init(states[0])
    && forall i :: 0 <= i < |states| - 1 ==> Step(states[i], states[i + 1])
  }

  // ---------------------------------------------------------------- invariant

  predicate OneDrain(s: State) {
    && (forall t, u :: t in s.tasks && u in s.tasks ==> t == u)
    && (s.active <==> s.tasks != map[])
  }

  ghost predicate GoodPc(s: State, pc: Pc) {
    && NoneBlank(Held(pc)) && Distinct(Held(pc)) && Ids(Held(pc)) !! Ids(s.queue)
    && (forall id :: id in Ids(Held(pc)) ==> id < s.nextId)
    && (pc.Taking? || pc.owner < s.nextOwner)
    && (pc.Running? || (pc.Restoring? && pc.ran) ==> Ids(pc.entries) <= s.submitted)
    && (pc.Sending? || (pc.Restoring? && !pc.ran) ==> Ids(pc.entries) * s.submitted <= s.repeated)
  }

  ghost predicate Keeps(s: State, id: EntryId) {
    exists t :: t in s.tasks && id in Ids(Held(s.tasks[t]))
  }

  /** Where an entry that was ever added is now. */
  ghost predicate Accounted(s: State, id: EntryId) {
    id in Ids(s.queue) || Keeps(s, id) || id in s.submitted || id in s.removed || id in s.unrestored || id in Ids(s.dropped)
  }

  ghost predicate GoodSlot(s: State) {
    s.slot.Some? && s.slot.value.Drain? ==>
      && s.slot.value.number < s.nextOwner
      && (s.slot.value.number in s.stuck || exists t :: t in s.tasks && Claims(s.tasks[t], s.slot.value.number))
  }

  predicate Claims(pc: Pc, owner: nat) {
    (pc.Sending? || pc.Restoring?) && pc.owner == owner
  }

  ghost predicate Good(s: State) {
    && OneDrain(s)
    && NoneBlank(s.queue) && Distinct(s.queue)
    && (forall id :: id in Ids(s.queue) ==> id < s.nextId)
    && (forall t :: t in s.tasks ==> GoodPc(s, s.tasks[t]))
    && Ids(s.queue) * s.submitted <= s.repeated <= s.submitted
    && (forall id :: id in s.submitted ==> id < s.nextId)
    && (forall id: EntryId :: id < s.nextId ==> Accounted(s, id))
    && (forall i :: 0 <= i < |s.dropped| ==> DesktopBlank(s.dropped[i].text) && !BridgeBlank(s.dropped[i].text))
    && GoodSlot(s)
  }

  // -------------------------------------------------------------- preservation

  lemma IdsConcat(a: seq<Entry>, b: seq<Entry>)
    ensures Ids(a + b) == Ids(a) + Ids(b)
  {
    forall id | id in Ids(a) + Ids(b)
      ensures id in Ids(a + b)
    {
      if i :| 0 <= i < |a| && a[i].id == id { assert (a + b)[i].id == id; }
      else {
        var j :| 0 <= j < |b| && b[j].id == id;
        assert (a + b)[|a| + j].id == id;
      }
    }
  }

  lemma IdsBumped(a: seq<Entry>)
    ensures Ids(Bumped(a)) == Ids(a)
  {
  }

  lemma TakeSplits(q: seq<Entry>)
    requires q != []
    ensures Taken(q) + Left(q) == q && Ids(Taken(q)) + Ids(Left(q)) == Ids(q)
    ensures Distinct(q) ==> Distinct(Taken(q)) && Distinct(Left(q)) && Ids(Taken(q)) !! Ids(Left(q))
    ensures NoneBlank(q) ==> NoneBlank(Taken(q)) && NoneBlank(Left(q))
  {
  }

  lemma EmptyIsFine()
    ensures Ids([]) == {} && Distinct([]) && NoneBlank([])
  {
  }

  lemma DroppedAreBlank(batch: seq<Entry>)
    requires NoneBlank(batch) && DesktopBlank(Join(batch))
    ensures forall i :: 0 <= i < |batch| ==> DesktopBlank(batch[i].text) && !BridgeBlank(batch[i].text)
  {
    JoinIsBlankIffAllAre(batch);
  }

  lemma TakeKeepsGood(s: State, task: TaskId)
    requires Good(s) && Enabled(s, Take(task, true))
    ensures Good(NextTake(s, task))
  {
    hide BridgeBlank, DesktopBlank, Join, Ids, Distinct, NoneBlank, Taken, Left;
    var s' := NextTake(s, task);
    if s.turn || s.slot.Some? || s.queue == [] {
      DoneKeepsGood(s, task);
    } else {
      TakeSplits(s.queue);
      EmptyIsFine();
      var batch := Taken(s.queue);
      if DesktopBlank(Join(batch)) { DroppedAreBlank(batch); }
      IdsConcat(s.dropped, batch);
      assert task in s'.tasks && Claims(s'.tasks[task], s.nextOwner);
      forall id: EntryId | id < s'.nextId
        ensures Accounted(s', id)
      {
        assert Accounted(s, id);
        assert Keeps(s, id) ==> Keeps(s', id);
        if id in Ids(batch) && !DesktopBlank(Join(batch)) { assert id in Ids(Held(s'.tasks[task])); }
      }
    }
  }

  lemma DoneKeepsGood(s: State, task: TaskId)
    requires Good(s) && task in s.tasks && (s.tasks[task].Taking? || s.tasks[task].Running?)
    ensures Good(Done(s, task))
  {
    var s' := Done(s, task);
    forall id: EntryId | id < s'.nextId
      ensures Accounted(s', id)
    {
      assert Accounted(s, id);
    }
  }

  /** Steps that move the drain without touching queue or ids. */
  lemma MoveKeepsGood(s: State, a: Action)
    requires Good(s) && Enabled(s, a) && (a.Start? || a.Refuse? || a.Prompted? || a.Settle?)
    ensures Good(Next(s, a))
  {
    hide BridgeBlank, DesktopBlank, Ids, Distinct, NoneBlank;
    var s' := Next(s, a);
    if a.Start? { EmptyIsFine(); }
    if a.Settle? && a.ok {
      DoneKeepsGood(s, a.task);
    } else {
      forall id: EntryId | id < s'.nextId
        ensures Accounted(s', id)
      {
        assert Accounted(s, id);
        if t :| t in s.tasks && id in Ids(Held(s.tasks[t])) { assert t in s'.tasks && Held(s'.tasks[t]) == Held(s.tasks[t]); }
      }
      if t :| s.slot.Some? && s.slot.value.Drain? && t in s.tasks && Claims(s.tasks[t], s.slot.value.number) {
        assert t in s'.tasks && (s'.slot.None? || Claims(s'.tasks[t], s.slot.value.number));
      }
    }
  }

  lemma RestoreKeepsGood(s: State, task: TaskId, ok: bool)
    requires Good(s) && Enabled(s, Restore(task, ok))
    ensures Good(Next(s, Restore(task, ok)))
  {
    hide BridgeBlank, DesktopBlank, Ids, Distinct;
    var s', pc := Next(s, Restore(task, ok)), s.tasks[task];
    IdsBumped(pc.entries);
    IdsConcat(Bumped(pc.entries), s.queue);
    assert s'.tasks == map[];
    forall id: EntryId | id < s'.nextId
      ensures Accounted(s', id)
    {
      assert Accounted(s, id);
    }
    if ok {
      RestoredIsDistinct(pc.entries, s.queue);
    }
  }

  lemma RestoredIsDistinct(batch: seq<Entry>, q: seq<Entry>)
    requires Distinct(batch) && Distinct(q) && Ids(batch) !! Ids(q)
    ensures Distinct(Bumped(batch) + q)
  {
    var r := Bumped(batch) + q;
    forall i, j | 0 <= i < j < |r|
      ensures r[i].id != r[j].id
    {
      if i < |batch| <= j {
        assert batch[i].id in Ids(batch) && q[j - |batch|].id in Ids(q);
      }
    }
  }

  /** A change of the queue alone. `gone` is what it removes. */
  lemma QueueKeepsGood(s: State, s': State, gone: set<EntryId>)
    requires Good(s) && s' == s.(queue := s'.queue, nextId := s'.nextId, removed := s.removed + gone)
    requires s.nextId <= s'.nextId && NoneBlank(s'.queue) && Distinct(s'.queue)
    requires forall id :: id in Ids(s'.queue) ==> id in Ids(s.queue) || s.nextId <= id < s'.nextId
    requires forall id :: id in Ids(s.queue) ==> id in Ids(s'.queue) || id in gone
    requires forall id: EntryId :: s.nextId <= id < s'.nextId ==> id in Ids(s'.queue)
    ensures Good(s')
  {
    hide BridgeBlank, DesktopBlank, Ids, Distinct, NoneBlank;
    forall id: EntryId | id < s'.nextId
      ensures Accounted(s', id)
    {
      if id < s.nextId { assert Accounted(s, id); assert Keeps(s, id) ==> Keeps(s', id); }
    }
  }

  lemma IdsOne(e: Entry)
    ensures Ids([e]) == {e.id}
  {
    assert [e][0].id in Ids([e]);
  }

  lemma AddKeepsGood(s: State, entry: Entry, front: bool)
    requires Good(s) && Enabled(s, Add(entry, front))
    ensures Good(Next(s, Add(entry, front)))
  {
    hide BridgeBlank, DesktopBlank;
    assert entry.id !in Ids(s.queue);
    IdsOne(entry);
    IdsConcat([entry], s.queue);
    IdsConcat(s.queue, [entry]);
    QueueKeepsGood(s, Next(s, Add(entry, front)), {});
  }

  lemma RemoveKeepsGood(s: State, index: nat)
    requires Good(s) && Enabled(s, Remove(index))
    ensures Good(Next(s, Remove(index)))
  {
    hide BridgeBlank, DesktopBlank;
    hide Ids, Distinct;
    RemoveSplits(s.queue, index);
    QueueKeepsGood(s, Next(s, Remove(index)), {s.queue[index].id});
  }

  lemma RemoveSplits(q: seq<Entry>, index: nat)
    requires index < |q|
    ensures Ids(q[..index] + q[index + 1..]) + {q[index].id} == Ids(q)
    ensures Distinct(q) ==> Distinct(q[..index] + q[index + 1..])
  {
    var front, e, back := q[..index], q[index], q[index + 1..];
    assert q == front + ([e] + back);
    IdsOne(e);
    IdsConcat([e], back);
    IdsConcat(front, [e] + back);
    IdsConcat(front, back);
  }

  lemma RewriteKeepsGood(s: State, queue: seq<Entry>)
    requires Good(s) && Enabled(s, Rewrite(queue))
    ensures Good(Next(s, Rewrite(queue)))
  {
    hide BridgeBlank, DesktopBlank;
    QueueKeepsGood(s, Next(s, Rewrite(queue)), {});
  }

  /** Turns, reservations and expiry by anyone else. */
  lemma SlotKeepsGood(s: State, a: Action)
    requires Good(s) && Enabled(s, a)
    requires a.Expire? || a.Reserve? || a.Release? || a.OtherTurn? || a.EndTurn?
    ensures Good(Next(s, a))
  {
    hide BridgeBlank, DesktopBlank, Ids, Distinct, NoneBlank;
    var s' := Next(s, a);
    forall id: EntryId | id < s'.nextId
      ensures Accounted(s', id)
    {
      assert Accounted(s, id);
      assert Keeps(s, id) ==> Keeps(s', id);
    }
  }

  lemma StepKeepsGood(s: State, a: Action)
    requires Good(s) && Enabled(s, a)
    ensures Good(Next(s, a))
  {
    hide Good;
    if a.Take? && a.ok { TakeKeepsGood(s, a.task); }
    else if a.Take? { DoneKeepsGood(s, a.task); }
    else if a.Restore? { RestoreKeepsGood(s, a.task, a.ok); }
    else if a.Add? { AddKeepsGood(s, a.entry, a.front); }
    else if a.Remove? { RemoveKeepsGood(s, a.index); }
    else if a.Rewrite? { RewriteKeepsGood(s, a.queue); }
    else if a.Expire? || a.Reserve? || a.Release? || a.OtherTurn? || a.EndTurn? { SlotKeepsGood(s, a); }
    else { MoveKeepsGood(s, a); }
  }

  lemma {:induction false} RunsAreGood(states: seq<State>, i: nat)
    requires IsRun(states) && i < |states|
    ensures Good(states[i])
  {
    if i > 0 {
      hide Good, Next, Enabled;
      RunsAreGood(states, i - 1);
      assert Step(states[i - 1], states[i - 1 + 1]);
      var a :| Enabled(states[i - 1], a) && states[i] == Next(states[i - 1], a);
      StepKeepsGood(states[i - 1], a);
    }
  }

  // ------------------------------------------------------------- main results

  /**
   * No queued prompt is lost: in every reachable state every entry ever added is in the queue,
   * held by the running drain, was submitted to a turn, was removed on request, or was handed to
   * a restore call that itself failed. The one exception is an entry whose whole text the desktop
   * trims away, although the bridge accepted it.
   */
  lemma NoPromptIsLost(states: seq<State>, n: nat, id: EntryId)
    requires IsRun(states) && n < |states| && id < states[n].nextId
    ensures Accounted(states[n], id)
    ensures forall i :: 0 <= i < |states[n].dropped| ==>
              DesktopBlank(states[n].dropped[i].text) && !BridgeBlank(states[n].dropped[i].text)
  {
    hide BridgeBlank, DesktopBlank;
    RunsAreGood(states, n);
  }

  /** With no drain running, nothing is in hand and no reservation of a drain is left, unless a restore call failed. */
  lemma IdleHoldsNothing(states: seq<State>, n: nat, id: EntryId)
    requires IsRun(states) && n < |states| && !states[n].active
    ensures !Keeps(states[n], id)
    ensures states[n].slot.Some? && states[n].slot.value.Drain? ==> states[n].slot.value.number in states[n].stuck
  {
    RunsAreGood(states, n);
  }

  /** At most one drain runs; queue and hand never share an entry and never hold one twice. */
  lemma OneDrainNoCopies(states: seq<State>, n: nat, t: TaskId, u: TaskId)
    requires IsRun(states) && n < |states| && t in states[n].tasks && u in states[n].tasks
    ensures t == u && states[n].active
    ensures Distinct(states[n].queue) && Distinct(Held(states[n].tasks[t]))
    ensures Ids(states[n].queue) !! Ids(Held(states[n].tasks[t]))
  {
    hide BridgeBlank, DesktopBlank, Ids;
    RunsAreGood(states, n);
  }

  /**
   * A submitted entry is back in the queue only through a restore after its turn had started, so
   * a prompt can run twice but only after such a failure.
   */
  lemma RepeatsComeFromLateFailures(states: seq<State>, n: nat, id: EntryId)
    requires IsRun(states) && n < |states| && id in states[n].submitted && id in Ids(states[n].queue)
    ensures id in states[n].repeated
  {
    RunsAreGood(states, n);
  }

  /**
   * A take drops its batch exactly when the desktop trims every text in it away; otherwise the
   * whole batch is in hand, under a fresh reservation.
   */
  lemma TakeDropsOnlyBlanks(s: State, task: TaskId)
    requires Enabled(s, Take(task, true)) && !s.turn && s.slot.None? && s.queue != []
    ensures var s', batch := Next(s, Take(task, true)), Taken(s.queue);
            && batch + s'.queue == s.queue && s'.slot == Some(Drain(s.nextOwner))
            && if forall i :: 0 <= i < |batch| ==> DesktopBlank(batch[i].text)
               then s'.dropped == s.dropped + batch && s'.tasks[task] == Restoring([], s.nextOwner, false)
               else s'.dropped == s.dropped && s'.tasks[task] == Sending(batch, s.nextOwner)
  {
    hide DesktopBlank, Join;
    JoinIsBlankIffAllAre(Taken(s.queue));
  }

  /** A drain whose turn is refused is a no-op: same entries in the same order, slot free; only the batch's versions moved. */
  lemma RefusedDrainRestores(s: State, task: TaskId)
    requires Enabled(s, Take(task, true)) && !s.turn && s.slot.None? && s.queue != [] && !DesktopBlank(Join(Taken(s.queue)))
    ensures var s1 := Next(s, Take(task, true));
            && Enabled(s1, Refuse(task)) && Enabled(Next(s1, Refuse(task)), Restore(task, true))
            && var s' := Next(Next(s1, Refuse(task)), Restore(task, true));
               && s'.slot.None? && !s'.active && task !in s'.tasks && |s'.queue| == |s.queue|
               && forall i :: 0 <= i < |s.queue| ==>
                    s'.queue[i] == if i < BatchLength(s.queue) then s.queue[i].(version := s.queue[i].version + 1) else s.queue[i]
  {
    hide DesktopBlank, Join, MergeableRun;
    RestoreUndoesTake(s.queue);
  }

  /** A failure after the turn started repeats the batch: it is back in the queue although it was submitted. */
  lemma LateFailureRepeats(s: State, task: TaskId, id: EntryId)
    requires Good(s) && task in s.tasks && s.tasks[task].Running? && id in Ids(s.tasks[task].entries)
    ensures var s1 := Next(s, Settle(task, false));
            && Enabled(s1, Restore(task, true))
            && var s' := Next(s1, Restore(task, true));
               id in Ids(s'.queue) && id in s'.submitted
  {
    hide BridgeBlank, DesktopBlank, Ids;
    var entries := s.tasks[task].entries;
    IdsBumped(entries);
    IdsConcat(Bumped(entries), s.queue);
  }

  // ---------------------------------------------------------- runs and repeats

  /** A run together with the actions that made it. */
  ghost predicate IsRunOf(states: seq<State>, actions: seq<Action>) {
    && |states| == |actions| + 1
    && Init(states[0])
    && forall i :: 0 <= i < |actions| ==> Enabled(states[i], actions[i]) && states[i + 1] == Next(states[i], actions[i])
  }

  lemma ActionsMakeARun(states: seq<State>, actions: seq<Action>)
    requires IsRunOf(states, actions)
    ensures IsRun(states)
  {
    hide Next, Enabled;
    forall i | 0 <= i < |states| - 1
      ensures Step(states[i], states[i + 1])
    {
      assert Enabled(states[i], actions[i]);
    }
  }

  predicate InHand(s: State, task: TaskId, id: EntryId) {
    task in s.tasks && id in Ids(Held(s.tasks[task]))
  }

  /** The step starts a turn with the entry. */
  predicate Runs(s: State, a: Action, id: EntryId) {
    a.Prompted? && InHand(s, a.task, id)
  }

  /** The step reports a failure after the entry's turn had started. */
  predicate FailsLate(s: State, a: Action, id: EntryId) {
    a.Settle? && !a.ok && InHand(s, a.task, id)
  }

  /** How often the entry was started, and how often its turn failed, in the first `n` steps. */
  function RunCount(states: seq<State>, actions: seq<Action>, n: nat, id: EntryId): nat
    requires n <= |actions| < |states|
  {
    if n == 0 then 0
    else RunCount(states, actions, n - 1, id) + if Runs(states[n - 1], actions[n - 1], id) then 1 else 0
  }

  function FailCount(states: seq<State>, actions: seq<Action>, n: nat, id: EntryId): nat
    requires n <= |actions| < |states|
  {
    if n == 0 then 0
    else FailCount(states, actions, n - 1, id) + if FailsLate(states[n - 1], actions[n - 1], id) then 1 else 0
  }

  /** The entry has yet to run: it is not added yet, or queued, or in the hand of a drain whose turn is not running. */
  ghost predicate Open(s: State, id: EntryId) {
    || s.nextId <= id
    || id in Ids(s.queue)
    || exists t :: t in s.tasks && !s.tasks[t].Running? && InHand(s, t, id)
  }

  lemma StepOpens(s: State, a: Action, id: EntryId)
    requires Good(s) && Enabled(s, a)
    ensures Open(Next(s, a), id) ==> Open(s, id) || FailsLate(s, a, id)
    ensures Runs(s, a, id) ==> Open(s, id) && !Open(Next(s, a), id)
    ensures FailsLate(s, a, id) ==> !Open(s, id)
  {
    hide BridgeBlank, DesktopBlank, Ids, Distinct, NoneBlank, Join, Taken, Left, Bumped;
    EmptyIsFine();
    if a.Take? && a.ok && s.queue != [] { TakeSplits(s.queue); }
    if a.Add? { AddedIds(s.queue, a.entry); }
    if a.Remove? { RemoveSplits(s.queue, a.index); }
    if a.Restore? {
      IdsBumped(s.tasks[a.task].entries);
      IdsConcat(Bumped(s.tasks[a.task].entries), s.queue);
    }
  }

  lemma AddedIds(q: seq<Entry>, e: Entry)
    ensures Ids([e] + q) == Ids(q) + {e.id} && Ids(q + [e]) == Ids(q) + {e.id}
  {
    IdsOne(e);
    IdsConcat([e], q);
    IdsConcat(q, [e]);
  }

  /**
   * In every run a prompt is started at most once more often than its turns failed after starting,
   * and while it waits in the queue or in a drain's hand, no more often than they failed. So
   * without such a failure no prompt runs twice.
   */
  lemma {:induction false} RunsOnceMoreThanItFails(states: seq<State>, actions: seq<Action>, n: nat, id: EntryId)
    requires IsRunOf(states, actions) && n <= |actions|
    ensures RunCount(states, actions, n, id)
         <= FailCount(states, actions, n, id) + if Open(states[n], id) then 0 else 1
  {
    hide Good, Next, Enabled, Open, Runs, FailsLate;
    if n > 0 {
      RunsOnceMoreThanItFails(states, actions, n - 1, id);
      ActionsMakeARun(states, actions);
      RunsAreGood(states, n - 1);
      assert Enabled(states[n - 1], actions[n - 1]) && states[n - 1 + 1] == Next(states[n - 1], actions[n - 1]);
      StepOpens(states[n - 1], actions[n - 1], id);
    }
  }

  /** The entry is marked as repeated, or its drain is about to hand it back after its turn started. */
  ghost predicate Late(s: State, id: EntryId) {
    || id in s.repeated
    || exists t :: t in s.tasks && s.tasks[t].Restoring? && s.tasks[t].ran && InHand(s, t, id)
  }

  lemma StepLate(s: State, a: Action, id: EntryId)
    requires Enabled(s, a) && Late(Next(s, a), id)
    ensures Late(s, id) || FailsLate(s, a, id)
  {
    hide Ids, DesktopBlank, Join, Taken, Left, Bumped;
    EmptyIsFine();
  }

  /** An entry counts as repeated only if some earlier step failed its turn after it had started. */
  lemma {:induction false} RepeatsNeedAFailure(states: seq<State>, actions: seq<Action>, n: nat, id: EntryId) returns (k: nat)
    requires IsRunOf(states, actions) && n <= |actions| && Late(states[n], id)
    ensures k < n && FailsLate(states[k], actions[k], id)
  {
    hide Next, Enabled, FailsLate;
    if n > 0 {
      assert Enabled(states[n - 1], actions[n - 1]) && states[n - 1 + 1] == Next(states[n - 1], actions[n - 1]);
      StepLate(states[n - 1], actions[n - 1], id);
      if Late(states[n - 1], id) { k := RepeatsNeedAFailure(states, actions, n - 1, id); }
      else { k := n - 1; }
    }
  }

  /** A turn that succeeded ends its drain: queue, slot and history stay, and nothing of the batch is in the queue. */
  lemma SettledTurnLeavesNothing(s: State, task: TaskId)
    requires Good(s) && task in s.tasks && s.tasks[task].Running?
    ensures Next(s, Settle(task, true)) == s.(tasks := map[], active := false)
    ensures Ids(s.tasks[task].entries) !! Ids(s.queue)
  {
    hide BridgeBlank, DesktopBlank, Ids, Distinct, NoneBlank;
    assert s.tasks - {task} == map[];
    assert GoodPc(s, s.tasks[task]);
  }

  /** A drain that nothing disturbs moves exactly its batch from the queue into one turn. */
  lemma UndisturbedDrainSubmits(s: State, task: TaskId)
    requires Enabled(s, Take(task, true)) && !s.turn && s.slot.None? && s.queue != [] && !DesktopBlank(Join(Taken(s.queue)))
    ensures var s1 := Next(s, Take(task, true));
            && Enabled(s1, Prompted(task)) && Enabled(Next(s1, Prompted(task)), Settle(task, true))
            && var s' := Next(Next(s1, Prompted(task)), Settle(task, true));
               && Taken(s.queue) + s'.queue == s.queue && s'.submitted == s.submitted + Ids(Taken(s.queue))
               && s'.slot.None? && s'.turn && !s'.active && task !in s'.tasks && s'.repeated == s.repeated
  {
    hide DesktopBlank, Join, Ids;
    TakeSplits(s.queue);
  }

  /** While the turn slot is reserved no turn runs. */
  predicate ReservedMeansIdle(s: State) {
    s.slot.Some? ==> !s.turn
  }

  /**
   * What the reservation is for: in every run, a drain about to start its turn can start it exactly
   * while its reservation stands, because nothing else could start one in between.
   */
  lemma {:induction false} ReservationKeepsTheTurn(states: seq<State>, n: nat, task: TaskId)
    requires IsRun(states) && n < |states|
    ensures ReservedMeansIdle(states[n])
    ensures var s := states[n];
            task in s.tasks && s.tasks[task].Sending? ==>
              (Enabled(s, Prompted(task)) <==> s.slot == Some(Drain(s.tasks[task].owner)))
  {
    if n > 0 {
      hide DesktopBlank, Join, Ids, Taken, Left, Bumped;
      ReservationKeepsTheTurn(states, n - 1, task);
      assert Step(states[n - 1], states[n - 1 + 1]);
    }
  }

  /**
   * A reservation goes only the way it came: one of another owner by that owner's release, one of a
   * drain by its expiry or by that drain starting its turn or handing its batch back.
   */
  lemma ReservationsAreTheirOwners(s: State, a: Action)
    requires Enabled(s, a) && s.slot.Some? && Next(s, a).slot != s.slot
    ensures Next(s, a).slot.None?
    ensures if s.slot.value.Other? then a.Release?
            else a.Expire? || ((a.Prompted? || a.Restore?) && s.tasks[a.task].owner == s.slot.value.number)
  {
    hide DesktopBlank, Join, Ids, Taken, Left, Bumped;
  }

  /** A take that fails, or finds a turn, a reservation or an empty queue, ends the drain and changes nothing else. */
  lemma FruitlessTakeChangesNothing(s: State, task: TaskId, ok: bool)
    requires Good(s) && Enabled(s, Take(task, ok)) && (!ok || s.turn || s.slot.Some? || s.queue == [])
    ensures Next(s, Take(task, ok)) == s.(tasks := map[], active := false)
  {
    hide DesktopBlank, BridgeBlank, Join, Ids, Distinct, NoneBlank, Taken, Left;
    assert s.tasks - {task} == map[];
  }

  /** Another turn keeps a drain from taking anything until it ends. */
  lemma OtherTurnBlocksTake(s: State, task: TaskId)
    requires Enabled(s, Take(task, true)) && Enabled(s, OtherTurn) && s.queue != []
    ensures var s1 := Next(s, OtherTurn);
            && Next(s1, Take(task, true)).queue == s.queue
            && Enabled(s1, EndTurn) && Next(Next(s1, EndTurn), Take(task, true)).queue == Left(s.queue)
  {
    hide DesktopBlank, Join, Taken, Left;
  }

  /** So does another's reservation, until it is released. */
  lemma OtherReservationBlocksTake(s: State, task: TaskId, number: nat)
    requires Enabled(s, Take(task, true)) && Enabled(s, Reserve(number)) && s.queue != []
    ensures var s1 := Next(s, Reserve(number));
            && Next(s1, Take(task, true)).queue == s.queue
            && Enabled(s1, Release) && Next(Next(s1, Release), Take(task, true)).queue == Left(s.queue)
  {
    hide DesktopBlank, Join, Taken, Left;
  }

  /** A removed entry is gone from the queue and the rest closes up; a reordered queue is what the next take sees. */
  lemma EditsTakeEffect(s: State, index: nat, queue: seq<Entry>)
    requires Good(s) && Enabled(s, Remove(index)) && Enabled(s, Rewrite(queue))
    ensures var s' := Next(s, Remove(index));
            && s.queue[index].id !in Ids(s'.queue) && Ids(s'.queue) + {s.queue[index].id} == Ids(s.queue)
            && s'.queue == s.queue[..index] + s.queue[index + 1..]
    ensures Next(s, Rewrite(queue)).queue == queue
  {
    RemoveSplits(s.queue, index);
    var rest := s.queue[..index] + s.queue[index + 1..];
    forall i | 0 <= i < |rest|
      ensures rest[i].id != s.queue[index].id
    {
      assert rest[i] == s.queue[if i < index then i else i + 1];
    }
  }

  /** An expired reservation is free for others, and the drain that held it can no longer start its turn. */
  lemma ExpiryFreesTheSlot(s: State, task: TaskId, number: nat)
    requires Enabled(s, Expire) && !s.turn
    ensures Enabled(Next(s, Expire), Reserve(number)) && Enabled(Next(s, Expire), OtherTurn)
    ensures !Enabled(Next(s, Expire), Prompted(task))
  {
  }

  /** An entry added in front is the first of the next batch; another goes behind everything queued. */
  lemma AddedEntryIsPlaced(s: State, entry: Entry)
    requires Enabled(s, Add(entry, true))
    ensures Taken(Next(s, Add(entry, true)).queue)[0] == entry && Next(s, Add(entry, true)).queue[1..] == s.queue
    ensures Next(s, Add(entry, false)).queue == s.queue + [entry]
  {
  }

  lemma Extend(states: seq<State>, a: Action) returns (longer: seq<State>)
    requires IsRun(states) && Enabled(states[|states| - 1], a)
    ensures IsRun(longer) && |longer| == |states| + 1
    ensures longer[|states|] == Next(states[|states| - 1], a)
  {
    hide Next, Enabled;
    longer := states + [Next(states[|states| - 1], a)];
    forall i | 0 <= i < |longer| - 1
      ensures Step(longer[i], longer[i + 1])
    {
      if i < |states| - 1 { assert Step(states[i], states[i + 1]); }
    }
  }

  /** The exception is reachable: a prompt of one byte-order mark is queued, taken and gone. */
  lemma MarkOnlyPromptIsDropped() returns (states: seq<State>)
    ensures IsRun(states)
    ensures var s := states[|states| - 1];
            s.nextId == 1 && s.queue == [] && !s.active && s.submitted == {} && s.removed == {} && s.unrestored == {}
  {
    hide IsRun, BridgeBlank;
    var mark := Entry(0, 0, "\U{FEFF}", Prompt, false);
    var s0 := State([], None, false, false, map[], 0, 0, {}, {}, {}, {}, [], {});
    assert IsRun([s0]) by { StartIsRun(s0); }
    TrimsDisagree();
    states := Extend([s0], Add(mark, false));
    states := Extend(states, Start(0));
    assert states[2].queue == [mark] && MergeableRun([mark]) == 1 && Join([mark]) == mark.text;
    assert Taken([mark]) == [mark];
    states := Extend(states, Take(0, true));
    assert states[3].tasks[0] == Restoring([], 0, false);
    states := Extend(states, Restore(0, true));
  }

  lemma StartIsRun(s: State)
    requires Init(s)
    ensures IsRun([s])
  {
  }
}
