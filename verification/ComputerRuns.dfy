/**
 * Computer Runs as the service stores them: a lifecycle state, a version raised by every
 * transition, a control epoch, the current observation and the grant. Each mutation is one
 * `update_run` under the store lock; a mutation that is refused leaves the run as it was.
 */
module ComputerRuns {

  import opened Wrappers

  type Session = nat
  type ObservationId = nat

  // ------------------------------------------------------------- observations

  datatype SemanticAction = InvokeElement | SetElementValue | SelectElement | ScrollElement

  datatype Element = Element(
    id: string, role: string, name: Option<string>, enabled: bool, hardDenied: bool, actions: set<SemanticAction>)

  datatype Observation = Observation(id: ObservationId, elements: seq<Element>)

  datatype ComputerAction =
    | ActivateTarget
    | Invoke(element: string)
    | SetValue(element: string, text: string)
    | Select(element: string)
    | Scroll(target: Option<string>, deltaX: int, deltaY: int)
    | KeyChord
    | PointerClick
    | Wait(millis: nat)

  function ReferencedElement(a: ComputerAction): Option<string> {
    match a
    case Invoke(e) => Some(e)
    case SetValue(e, _) => Some(e)
    case Select(e) => Some(e)
    case Scroll(t, _, _) => t
    case _ => None
  }

  /** The element at an index carries the id, and none before it does. */
  predicate FirstWith(elements: seq<Element>, id: string, i: nat) {
    i < |elements| && elements[i].id == id && forall j :: 0 <= j < i ==> elements[j].id != id
  }

  /** The first element with an id. */
  function FindElement(elements: seq<Element>, id: string): (r: Option<Element>)
    ensures r.Some? ==> exists i: nat :: FirstWith(elements, id, i) && elements[i] == r.value
    ensures r.None? ==> forall e :: e in elements ==> e.id != id
  {
    if elements == [] then None
    else if elements[0].id == id then assert FirstWith(elements, id, 0); Some(elements[0])
    else
      var r := FindElement(elements[1..], id);
      assert forall i: nat :: FirstWith(elements[1..], id, i) ==>
        FirstWith(elements, id, i + 1) && elements[i + 1] == elements[1..][i];
      r
  }

  /** `approval_copy`: what the operator is shown, or why the action cannot be staged. */
  function ApprovalCopy(o: Observation, a: ComputerAction): Result<(string, string)> {
    if a.ActivateTarget? then Ok(("Bring the authorized application to the foreground", "Application focus"))
    else if ReferencedElement(a).None? then Err("The proposed action does not identify an element")
    else
      var found := FindElement(o.elements, ReferencedElement(a).value);
      if found.None? || !found.value.enabled then Err("The proposed element is missing or disabled")
      else
        var (required, verb, risk) :=
          match a
          case SetValue(_, _) => (SetElementValue, "Enter visible text in", "Text entry")
          case Invoke(_) => (InvokeElement, "Invoke", "Semantic action")
          case Select(_) => (SelectElement, "Select", "Semantic action")
          case _ => (ScrollElement, "Scroll to", "Semantic action");
        if found.value.hardDenied || required !in found.value.actions then
          Err("The proposed semantic action is outside the observed scope")
        else
          var name := if found.value.name.Some? then found.value.name.value else found.value.role;
          Ok((verb + " " + name, risk))
  }

  /** The semantic action an element must advertise. */
  function Required(a: ComputerAction): Option<SemanticAction> {
    match a
    case SetValue(_, _) => Some(SetElementValue)
    case Invoke(_) => Some(InvokeElement)
    case Select(_) => Some(SelectElement)
    case Scroll(_, _, _) => Some(ScrollElement)
    case _ => None
  }

  /** An action the operator may be asked about: focusing, or a semantic action on an observed element. */
  ghost predicate Admissible(o: Observation, a: ComputerAction) {
    a.ActivateTarget? ||
    (&& Required(a).Some? && ReferencedElement(a).Some?
     && exists i: nat ::
          && FirstWith(o.elements, ReferencedElement(a).value, i)
          && o.elements[i].enabled && !o.elements[i].hardDenied && Required(a).value in o.elements[i].actions)
  }

  /** Key chords, clicks, waits and aimless scrolling are never staged. */
  lemma ApprovalCopyIsExact(o: Observation, a: ComputerAction)
    ensures ApprovalCopy(o, a).Ok? <==> Admissible(o, a)
    ensures a.KeyChord? || a.PointerClick? || a.Wait? ==> !Admissible(o, a)
  {
    if ReferencedElement(a).Some? {
      var id := ReferencedElement(a).value;
      var found := FindElement(o.elements, id);
      if found.Some? {
        var i: nat :| FirstWith(o.elements, id, i) && o.elements[i] == found.value;
        assert forall j: nat :: FirstWith(o.elements, id, j) ==> j == i;
      }
    }
  }

  /** What the operator reads names the act and the element, by its name or else by its role. */
  lemma ApprovalCopyNames(o: Observation, a: ComputerAction, i: nat)
    requires ApprovalCopy(o, a).Ok? && ReferencedElement(a).Some? && FirstWith(o.elements, ReferencedElement(a).value, i)
    ensures var (text, risk), e := ApprovalCopy(o, a).value, o.elements[i];
            var act := if a.SetValue? then "Enter visible text in" else if a.Invoke? then "Invoke"
                       else if a.Select? then "Select" else "Scroll to";
            && text == act + " " + (if e.name.Some? then e.name.value else e.role)
            && (risk == "Text entry" <==> a.SetValue?)
  {
    var id := ReferencedElement(a).value;
    var found := FindElement(o.elements, id);
    var k: nat :| FirstWith(o.elements, id, k) && o.elements[k] == found.value;
    assert k == i;
    assert "Text entry"[0] == 'T' && "Semantic action"[0] == 'S';
  }

  // --------------------------------------------------------------------- runs

  datatype RunState =
    | AwaitingAuthorization | Ready | Observing | Acting | Paused
    | Completed | Failed | Cancelled | Interrupted | LimitReached

  predicate Terminal(s: RunState) {
    s.Completed? || s.Failed? || s.Cancelled? || s.Interrupted? || s.LimitReached?
  }

  predicate Legal(from: RunState, to: RunState) {
    || to.Interrupted?
    || (match from
        case AwaitingAuthorization => to.Ready? || to.Cancelled?
        case Ready => to.Observing? || to.Acting? || to.Paused? || to.Completed? || to.Cancelled? || to.LimitReached?
        case Observing => to.Ready? || to.Paused? || to.Failed? || to.Cancelled? || to.LimitReached?
        case Acting => to.Ready? || to.Paused? || to.Failed? || to.Cancelled? || to.LimitReached?
        case Paused => to.Ready? || to.Cancelled?
        case _ => false)
  }

  datatype Disposition = AgentOwned | OperatorPaused | OperatorTakeover | Stopped | UncertainOutcome

  /** `uses` is the number of actions left; `None` means no bound. */
  datatype Grant = Grant(uses: Option<nat>, revoked: bool)

  datatype Run = Run(
    owner: Session,
    native: bool,
    state: RunState,
    version: nat,
    observation: Option<Observation>,
    disposition: Disposition,
    epoch: nat,
    actions: nat,
    maxActions: nat,
    grant: Option<Grant>)

  function NewRun(owner: Session, native: bool, maxActions: nat): Run {
    Run(owner, native, AwaitingAuthorization, 1, None, AgentOwned, 0, 0, maxActions, None)
  }

  /** `ComputerRun::transition`. */
  function Transition(r: Run, next: RunState): Option<Run> {
    if r.state == next then Some(r)
    else if Terminal(r.state) || !Legal(r.state, next) then None
    else Some(r.(state := next, version := r.version + 1))
  }

  function SetDisposition(r: Run, d: Disposition): Run {
    if r.disposition == d then r else r.(disposition := d, epoch := r.epoch + 1)
  }

  function Revoke(r: Run): Run {
    r.(observation := None, grant := if r.grant.None? then None else Some(r.grant.value.(revoked := true)))
  }

  function Spend(g: Option<Grant>): Option<Grant> {
    if g.None? || g.value.uses.None? || g.value.uses.value == 0 then g
    else Some(g.value.(uses := Some(g.value.uses.value - 1)))
  }

  /**
   * The mutations of the service. Clocks, budgets and backend answers are their parameters;
   * `permitted` stands for the policy checks on what is not modelled: targets, expiry, sequence
   * numbers, sensitivity.
   */
  datatype Mutation =
    | Authorize(version: nat, uses: Option<nat>, permitted: bool)
    | BeginObserve(version: nat, overLimit: bool, permitted: bool)
    | CommitObservation(observation: Observation, overEvidence: bool, permitted: bool)
    | PrepareAct(version: nat, observationId: ObservationId, overLimit: bool, permitted: bool)
    | CommitAct(epoch: nat)
    | FailInflight(uncertain: bool)
    | Pause(version: nat)
    | TakeOver(version: nat)
    | Cancel
    | Complete(version: nat, verified: bool)

  /** A transition followed by revoking authority and setting the disposition. */
  function End(r: Run, next: RunState, d: Disposition): Option<Run> {
    match Transition(r, next)
    case None => None
    case Some(r') => Some(SetDisposition(Revoke(r'), d))
  }

  /** The run after an admitted mutation, or `None` when the mutation is refused. */
  function Mutate(r: Run, m: Mutation): Option<Run> {
    match m
    case Authorize(version, uses, permitted) =>
      if r.version != version || r.disposition.OperatorTakeover? then None
      else if !r.state.AwaitingAuthorization? && !r.state.Paused? then None
      else if !permitted || (uses.Some? && uses.value > r.maxActions) then None
      else
        var ready := Transition(r.(grant := Some(Grant(uses, false))), Ready);
        if ready.None? then None else Some(SetDisposition(ready.value, AgentOwned))
    case BeginObserve(version, overLimit, permitted) =>
      if r.version != version then None
      else if overLimit || r.actions >= r.maxActions then End(r, LimitReached, r.disposition)
      else if !r.state.Ready? || r.grant.None? || r.grant.value.revoked || !permitted then None
      else Transition(r, Observing)
    case CommitObservation(observation, overEvidence, permitted) =>
      if !r.state.Observing? || !permitted then None
      else if overEvidence then End(r, LimitReached, r.disposition)
      else Transition(r.(observation := Some(observation)), Ready)
    case PrepareAct(version, observationId, overLimit, permitted) =>
      if r.version != version then None
      else if overLimit || r.actions >= r.maxActions then End(r, LimitReached, r.disposition)
      else if r.observation.None? || r.observation.value.id != observationId || !permitted then None
      else if !r.state.Ready? || r.grant.None? || r.grant.value.revoked || r.grant.value.uses == Some(0) then None
      else Transition(r, Acting)
    case CommitAct(epoch) =>
      if !r.state.Acting? || r.epoch != epoch then Some(r)
      else
        var grant := Spend(r.grant);
        var done := r.(actions := r.actions + 1, grant := grant, observation := None);
        if done.actions >= done.maxActions then End(done, LimitReached, done.disposition)
        else if grant.Some? && grant.value.uses == Some(0) then End(done, Paused, OperatorPaused)
        else Transition(done, Ready)
    case FailInflight(uncertain) =>
      if !r.state.Observing? && !r.state.Acting? then Some(r)
      else End(r, Failed, if uncertain then UncertainOutcome else r.disposition)
    case Pause(version) =>
      if r.version != version || r.disposition.OperatorTakeover? then None else End(r, Paused, OperatorPaused)
    case TakeOver(version) =>
      if r.version != version then None else End(r, Paused, OperatorTakeover)
    case Cancel =>
      if Terminal(r.state) then Some(r) else End(r, Cancelled, Stopped)
    case Complete(version, verified) =>
      if r.version != version || (!r.state.Completed? && (!r.state.Ready? || !verified)) then None
      else End(r, Completed, r.disposition)
  }

  /** `update_run`: a refused mutation writes nothing. */
  function Apply(r: Run, m: Mutation): Run {
    var after := Mutate(r, m);
    if after.Some? then after.value else r
  }

  /**
   * What every mutation keeps: owner and kind are fixed, versions and epochs never fall, a
   * different state means a higher version, terminal states are absorbing, and after an operator
   * takeover no mutation makes the run ready, observing or acting again.
   */
  lemma MutationLaws(r: Run, m: Mutation)
    ensures var r' := Apply(r, m);
            && r'.owner == r.owner && r'.native == r.native
            && r.version <= r'.version && r.epoch <= r'.epoch
            && (r'.state != r.state ==> r.version < r'.version)
            && (Terminal(r.state) ==> r'.state == r.state && r'.version == r.version)
            && (r.disposition.OperatorTakeover? && r.state.Paused? ==> r'.state.Paused? || Terminal(r'.state))
            && (r.disposition.OperatorTakeover? && r.state.Paused? && r'.state.Paused? ==> r'.disposition.OperatorTakeover?)
  {
  }

  /** An action is prepared only on a ready run, at the expected version and observation, and consumes that version. */
  lemma PrepareConsumesVersion(r: Run, m: Mutation)
    requires m.PrepareAct? && Mutate(r, m).Some? && Mutate(r, m).value.state.Acting?
    ensures r.state.Ready? && r.version == m.version && Apply(r, m).version == r.version + 1
    ensures r.observation.Some? && r.observation.value.id == m.observationId
    ensures r.grant.Some? && !r.grant.value.revoked && r.grant.value.uses != Some(0)
  {
  }

  /** With the clock and the remaining policy checks in favour, the conditions above are all it takes. */
  lemma PrepareAdmitsExactly(r: Run, m: Mutation)
    requires m.PrepareAct? && !m.overLimit && m.permitted
    ensures (Mutate(r, m).Some? && Mutate(r, m).value.state.Acting?) <==>
            (&& r.state.Ready? && r.version == m.version && r.actions < r.maxActions
             && r.observation.Some? && r.observation.value.id == m.observationId
             && r.grant.Some? && !r.grant.value.revoked && r.grant.value.uses != Some(0))
  {
  }

  /** No authority is left: nothing to act on, and no live grant. */
  predicate Disarmed(r: Run) {
    r.observation.None? && (r.grant.Some? ==> r.grant.value.revoked)
  }

  predicate ControlAdmitted(r: Run, m: Mutation) {
    match m
    case Pause(version) => version == r.version && !r.disposition.OperatorTakeover? && !Terminal(r.state) && !r.state.AwaitingAuthorization?
    case TakeOver(version) => version == r.version && !Terminal(r.state) && !r.state.AwaitingAuthorization?
    case _ => !Terminal(r.state)
  }

  /**
   * Pause and take over work at the version the operator saw, on every run that was authorized and
   * has not ended; cancel works on every run that has not ended. Each takes all authority away.
   */
  lemma OperatorControl(r: Run, m: Mutation)
    requires m.Pause? || m.TakeOver? || m.Cancel?
    ensures var r' := Apply(r, m);
            if ControlAdmitted(r, m) then
              && Disarmed(r')
              && r'.state == (if m.Cancel? then Cancelled else Paused)
              && r'.disposition == (if m.Cancel? then Stopped else if m.Pause? then OperatorPaused else OperatorTakeover)
              && r'.actions == r.actions
            else r' == r
  {
  }

  /** An action in flight when the operator stepped in is not booked when it returns, and none starts after it. */
  lemma ControlStopsActions(r: Run, m: Mutation, late: Mutation)
    requires m.Pause? || m.TakeOver? || m.Cancel?
    requires ControlAdmitted(r, m) && (late.CommitAct? || late.CommitObservation? || late.PrepareAct? || late.BeginObserve?)
    ensures var r' := Apply(Apply(r, m), late);
            && r'.actions == r.actions && Disarmed(r') && !r'.state.Acting? && !r'.state.Observing? && !r'.state.Ready?
  {
    OperatorControl(r, m);
  }

  /** The cycle of an authorized run: observe, act, and either go on, stop for want of uses, or reach the limit. */
  lemma AgentCycle(owner: Session, native: bool, maxActions: nat, uses: Option<nat>, o: Observation)
    requires maxActions > 0 && uses != Some(0) && (uses.Some? ==> uses.value <= maxActions)
    ensures var ready := Apply(NewRun(owner, native, maxActions), Authorize(1, uses, true));
            var observed := Apply(Apply(ready, BeginObserve(2, false, true)), CommitObservation(o, false, true));
            var acting := Apply(observed, PrepareAct(4, o.id, false, true));
            var r := Apply(acting, CommitAct(0));
            && observed.state.Ready? && observed.observation == Some(o)
            && acting.state.Acting? && acting.observation == Some(o)
            && r.actions == 1 && r.version == 6 && r.observation.None?
            && r.state == (if maxActions == 1 then LimitReached else if uses == Some(1) then Paused else Ready)
            && (r.state.Ready? <==> r.grant.Some? && !r.grant.value.revoked)
  {
    hide Apply;
    ObservedRun(owner, native, maxActions, uses, o);
    var observed := Run(owner, native, Ready, 4, Some(o), AgentOwned, 0, 0, maxActions, Some(Grant(uses, false)));
    ActionIsBooked(observed);
  }

  /** A new run that was authorized and then observed. */
  lemma ObservedRun(owner: Session, native: bool, maxActions: nat, uses: Option<nat>, o: Observation)
    requires maxActions > 0 && (uses.Some? ==> uses.value <= maxActions)
    ensures var ready := Apply(NewRun(owner, native, maxActions), Authorize(1, uses, true));
            Apply(Apply(ready, BeginObserve(2, false, true)), CommitObservation(o, false, true)) ==
            Run(owner, native, Ready, 4, Some(o), AgentOwned, 0, 0, maxActions, Some(Grant(uses, false)))
  {
    var ready := Apply(NewRun(owner, native, maxActions), Authorize(1, uses, true));
    assert ready == Run(owner, native, Ready, 2, None, AgentOwned, 0, 0, maxActions, Some(Grant(uses, false)));
    var observing := Apply(ready, BeginObserve(2, false, true));
    assert observing == ready.(state := Observing, version := 3);
  }

  lemma ActionIsBooked(r: Run)
    requires r.state.Ready? && r.observation.Some? && r.actions < r.maxActions
    requires r.grant.Some? && !r.grant.value.revoked && r.grant.value.uses != Some(0)
    ensures var acting := Apply(r, PrepareAct(r.version, r.observation.value.id, false, true));
            var after := Apply(acting, CommitAct(r.epoch));
            && acting == r.(state := Acting, version := r.version + 1)
            && after.actions == r.actions + 1 && after.version == r.version + 2 && after.observation.None?
            && after.state == (if r.actions + 1 == r.maxActions then LimitReached
                               else if r.grant.value.uses == Some(1) then Paused else Ready)
            && (after.state.Ready? <==> after.grant.Some? && !after.grant.value.revoked)
  {
    var acting := Apply(r, PrepareAct(r.version, r.observation.value.id, false, true));
    assert acting == r.(state := Acting, version := r.version + 1);
  }

  /** A failed backend call ends the run without authority; a verified completion ends a ready run. */
  lemma EndingsTakeEffect(r: Run, uncertain: bool, version: nat)
    ensures r.state.Observing? || r.state.Acting? ==>
              var r' := Apply(r, FailInflight(uncertain));
              r'.state.Failed? && Disarmed(r') && r'.disposition == if uncertain then UncertainOutcome else r.disposition
    ensures r.state.Ready? && r.version == version ==>
              Apply(r, Complete(version, true)).state.Completed? && Disarmed(Apply(r, Complete(version, true)))
    ensures r.state.Ready? ==> Apply(r, Complete(version, false)) == r
  {
  }

  predicate Armed(r: Run) {
    r.grant.Some? && !r.grant.value.revoked
  }

  /**
   * A permitted grant is taken exactly by a run that waits for one or was paused, at the version
   * seen, not after a takeover, and for no more uses than the run has actions; it makes the run
   * ready and the agent's own.
   */
  lemma AuthorizeExactly(r: Run, version: nat, uses: Option<nat>)
    ensures var r' := Apply(r, Authorize(version, uses, true));
            if && (r.state.AwaitingAuthorization? || r.state.Paused?) && r.version == version
               && !r.disposition.OperatorTakeover? && (uses.Some? ==> uses.value <= r.maxActions)
            then r'.state.Ready? && r'.disposition.AgentOwned? && r'.grant == Some(Grant(uses, false)) && r'.version == r.version + 1
            else r' == r
    ensures Apply(r, Authorize(version, uses, false)) == r
  {
  }

  predicate OverBudget(r: Run, overLimit: bool) {
    overLimit || r.actions >= r.maxActions
  }

  /** Within budget, an observation starts exactly on a ready and authorized run at the version seen. */
  lemma ObserveExactly(r: Run, m: Mutation)
    requires m.BeginObserve? && !OverBudget(r, m.overLimit)
    ensures var r' := Apply(r, m);
            if r.state.Ready? && Armed(r) && r.version == m.version && m.permitted
            then r'.state.Observing? && r'.version == r.version + 1 && r'.grant == r.grant
            else r' == r
  {
  }

  /** What was observed becomes current exactly if the run still waits for it and it is permitted and within bounds. */
  lemma ObservationIsTakenExactly(r: Run, o: Observation, permitted: bool)
    ensures var r' := Apply(r, CommitObservation(o, false, permitted));
            if r.state.Observing? && permitted
            then r' == r.(state := Ready, version := r.version + 1, observation := Some(o))
            else r' == r
  {
  }

  /** Out of budget, the next step of a working run ends it at its limit and takes its authority. */
  lemma LimitEndsRun(r: Run, m: Mutation)
    requires || (m.BeginObserve? && OverBudget(r, m.overLimit) && r.version == m.version && r.state.Ready?)
             || (m.PrepareAct? && OverBudget(r, m.overLimit) && r.version == m.version && r.state.Ready?)
             || (m.CommitObservation? && m.overEvidence && m.permitted && r.state.Observing?)
    ensures Apply(r, m).state.LimitReached? && Disarmed(Apply(r, m)) && Apply(r, m).disposition == r.disposition
  {
  }

  /** A run at work is the agent's own. */
  predicate Owned(r: Run) {
    r.state.Ready? || r.state.Observing? || r.state.Acting? ==> r.disposition.AgentOwned?
  }

  function ApplyAll(r: Run, ms: seq<Mutation>): Run {
    if ms == [] then r else Apply(ApplyAll(r, ms[..|ms| - 1]), ms[|ms| - 1])
  }

  lemma {:induction false} HistoryLaws(r: Run, ms: seq<Mutation>)
    ensures ApplyAll(r, ms).epoch >= r.epoch
    ensures Owned(r) ==> Owned(ApplyAll(r, ms))
  {
    hide Apply;
    if ms != [] {
      var front, last := ApplyAll(r, ms[..|ms| - 1]), ms[|ms| - 1];
      HistoryLaws(r, ms[..|ms| - 1]);
      MutationLaws(front, last);
      if Owned(front) { MutationKeepsOwned(front, last); }
    }
  }

  lemma MutationKeepsOwned(r: Run, m: Mutation)
    requires Owned(r)
    ensures Owned(Apply(r, m))
  {
  }

  /**
   * An action that was in flight when the operator stepped in is never booked: not then, and not
   * after the run was authorized again and is acting once more.
   */
  lemma LateActIsNeverBooked(start: Run, before: seq<Mutation>, m: Mutation, after: seq<Mutation>)
    requires start.state.AwaitingAuthorization?
    requires m.Pause? || m.TakeOver? || m.Cancel?
    requires var r := ApplyAll(start, before); r.state.Acting? && ControlAdmitted(r, m)
    ensures var r := ApplyAll(start, before);
            var late := ApplyAll(Apply(r, m), after);
            Apply(late, CommitAct(r.epoch)) == late
  {
    hide Apply;
    var r := ApplyAll(start, before);
    HistoryLaws(start, before);
    ControlRaisesEpoch(r, m);
    HistoryLaws(Apply(r, m), after);
    OldEpochIsIgnored(ApplyAll(Apply(r, m), after), r.epoch);
  }

  lemma ControlRaisesEpoch(r: Run, m: Mutation)
    requires (m.Pause? || m.TakeOver? || m.Cancel?) && ControlAdmitted(r, m) && r.disposition.AgentOwned?
    ensures Apply(r, m).epoch > r.epoch
  {
  }

  lemma OldEpochIsIgnored(r: Run, epoch: nat)
    requires epoch != r.epoch
    ensures Apply(r, CommitAct(epoch)) == r
  {
  }

  /** The action count stays within its limit, and an action in flight still fits. */
  predicate WithinBudget(r: Run) {
    r.actions <= r.maxActions && (r.state.Acting? ==> r.actions < r.maxActions)
  }

  /**
   * Only committing an action in flight counts, once, and spends one use of a bounded grant; a
   * revoked grant stays revoked until a new one is issued.
   */
  lemma BudgetIsKept(r: Run, m: Mutation)
    requires WithinBudget(r)
    ensures var r' := Apply(r, m);
            && WithinBudget(r') && r'.maxActions == r.maxActions
            && r'.actions == (if m.CommitAct? && r.state.Acting? && r.epoch == m.epoch then r.actions + 1 else r.actions)
            && (r'.actions > r.actions && r.grant.Some? && r.grant.value.uses.Some? && r.grant.value.uses.value > 0 ==>
                  r'.grant.Some? && r'.grant.value.uses == Some(r.grant.value.uses.value - 1))
            && (r.grant.Some? && r.grant.value.revoked && !m.Authorize? ==> r'.grant.Some? && r'.grant.value.revoked)
            && (Terminal(r'.state) && r'.state != r.state ==> r'.observation.None?)
  {
  }
}
