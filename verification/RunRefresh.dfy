/**
 * The list of durable runs and its scope label. Refresh requests may answer in any order, a
 * refresh of the scope already being loaded is suppressed, and only the newest request writes its
 * answer. Connecting and disconnecting empty the list, and an update of one remote run rewrites
 * its entry, outside the request guard and at any moment.
 */
module RunRefresh {

  import opened Wrappers

  type Scope = nat

  /** A listed run; `remote` says whether it came from the remote service. */
  datatype Run = Run(id: string, remote: bool, content: string)

  type Listing = seq<Run>

  /** `createLatestRequestGuard`: a newer request invalidates every older response. */
  class LatestRequestGuard {
    var generation: nat

    constructor ()
      ensures generation == 0
    {
      generation := 0;
    }

    method Begin() returns (request: nat)
      modifies this
      ensures generation > old(generation) && IsCurrent(request)
    {
      generation := generation + 1;
      request := generation;
    }

    /** Holds of the last number `Begin` returned and, as numbers grow, of no earlier one. */
    predicate IsCurrent(request: nat)
      reads this
    {
      request == generation
    }
  }

  // ---------------------------------------------------- writes outside the guard

  /** `scoped` is whether the updated run belongs to the scope it was asked for. */
  datatype Edit = Clear | Patch(run: Run, scoped: bool)

  function IndexOf(runs: Listing, id: string): (i: int)
    ensures -1 <= i < |runs|
    ensures i >= 0 ==> runs[i].id == id && forall j :: 0 <= j < i ==> runs[j].id != id
    ensures i < 0 ==> forall j :: 0 <= j < |runs| ==> runs[j].id != id
  {
    if runs == [] then -1
    else if runs[0].id == id then 0
    else
      var i := IndexOf(runs[1..], id);
      if i < 0 then -1 else i + 1
  }

  /** `replaceScopedRemotePublicRun`, and only over a list of remote runs. */
  function Patched(runs: Listing, run: Run, scoped: bool): Listing {
    if (exists r :: r in runs && !r.remote) || !scoped then runs
    else
      var i := IndexOf(runs, run.id);
      if i < 0 then runs + [run] else runs[i := run]
  }

  /** What is shown: the list and the scope it is labelled with. */
  datatype Screen = Screen(runs: Listing, scope: Option<Scope>)

  function Edited(screen: Screen, edit: Edit): Screen {
    match edit
    case Clear => Screen([], None)
    case Patch(run, scoped) => screen.(runs := Patched(screen.runs, run, scoped))
  }

  function EditedAll(screen: Screen, edits: seq<Edit>): Screen {
    if edits == [] then screen else Edited(EditedAll(screen, edits[..|edits| - 1]), edits[|edits| - 1])
  }

  // ------------------------------------------------------------------- protocol

  /** What a request asked for, and its answer once it has one. */
  datatype Request = Request(scope: Scope, answer: Option<Result<Listing>>)

  datatype InFlight = InFlight(scope: Scope, request: nat)

  /**
   * `requests` maps the number of every scoped request to what became of it, `base` is what the
   * guarded code last wrote and `edits` what was written past it since; the three are history.
   */
  datatype State = State(
    generation: nat,
    inFlight: Option<InFlight>,
    busy: bool,
    screen: Screen,
    requests: map<nat, Request>,
    base: Screen,
    edits: seq<Edit>)

  datatype Action =
    | Refresh(scope: Option<Scope>)
    | Answer(request: nat, answer: Result<Listing>)
    | Outside(edit: Edit)

  const EMPTY := Screen([], None)

  ghost predicate Init(s: State) {
    s == State(0, None, false, EMPTY, map[], EMPTY, [])
  }

  predicate Enabled(s: State, a: Action) {
    a.Answer? ==> a.request in s.requests && s.requests[a.request].answer.None?
  }

  function Shown(r: Request): Screen
    requires r.answer.Some?
  {
    Screen(if r.answer.value.Ok? then r.answer.value.value else [], Some(r.scope))
  }

  function NextRefresh(s: State, scope: Option<Scope>): State {
    if scope.Some? && s.inFlight.Some? && s.inFlight.value.scope == scope.value then s
    else
      var request := s.generation + 1;
      if scope.None? then State(request, None, false, EMPTY, s.requests, EMPTY, [])
      else
        s.(generation := request,
           inFlight := Some(InFlight(scope.value, request)),
           busy := true,
           requests := s.requests[request := Request(scope.value, None)])
  }

  function NextAnswer(s: State, request: nat, answer: Result<Listing>): State
    requires request in s.requests
  {
    var done := Request(s.requests[request].scope, Some(answer));
    var s1 := s.(requests := s.requests[request := done]);
    var s2 := if request == s.generation then s1.(screen := Shown(done), base := Shown(done), edits := []) else s1;
    if s.inFlight.None? || s.inFlight.value.request != request then s2
    else s2.(inFlight := None, busy := if request == s.generation then false else s.busy)
  }

  function Next(s: State, a: Action): State
    requires Enabled(s, a)
  {
    match a
    case Refresh(scope) => NextRefresh(s, scope)
    case Answer(request, answer) => NextAnswer(s, request, answer)
    case Outside(edit) => s.(screen := Edited(s.screen, edit), edits := s.edits + [edit])
  }

  ghost predicate Step(s: State, s': State) {
    exists a :: Enabled(s, a) && s' == Next(s, a)
  }

  ghost predicate IsRun(states: seq<State>) {
    && |states| > 0
    && Init(states[0])
    && forall i :: 0 <= i < |states| - 1 ==> Step(states[i], states[i + 1])
  }

  /** What the newest request put on the screen, once it has: its answer and scope, or nothing without a scope. */
  function Newest(s: State): Option<Screen> {
    if s.generation !in s.requests then Some(EMPTY)
    else if s.requests[s.generation].answer.None? then None
    else Some(Shown(s.requests[s.generation]))
  }

  predicate Good(s: State) {
    && (forall r :: r in s.requests ==> r <= s.generation)
    && (s.inFlight.Some? ==>
          && s.inFlight.value.request == s.generation && s.generation in s.requests
          && s.requests[s.generation] == Request(s.inFlight.value.scope, None))
    && (s.busy <==> s.inFlight.Some?)
    && (s.inFlight.None? ==> Newest(s) == Some(s.base))
    && s.screen == EditedAll(s.base, s.edits)
  }

  lemma EditKeepsGood(s: State, edit: Edit)
    requires Good(s)
    ensures Good(Next(s, Outside(edit)))
  {
    hide Edited;
    assert (s.edits + [edit])[..|s.edits|] == s.edits;
  }

  lemma {:induction false} RunsAreGood(states: seq<State>, n: nat)
    requires IsRun(states) && n < |states|
    ensures Good(states[n])
  {
    if n > 0 {
      hide Edited;
      RunsAreGood(states, n - 1);
      assert Step(states[n - 1], states[n - 1 + 1]);
      var a :| Enabled(states[n - 1], a) && states[n] == Next(states[n - 1], a);
      if a.Outside? { EditKeepsGood(states[n - 1], a.edit); }
    }
  }

  // --------------------------------------------------------------- main results

  /**
   * In every interleaving: the in-flight record, when present, names the newest request and its
   * scope; the busy flag is set exactly when it is present; and whenever the list is not busy it
   * shows the newest request's answer and scope, changed by exactly the clears and patches since.
   */
  lemma NewestDecides(states: seq<State>, n: nat)
    requires IsRun(states) && n < |states|
    ensures var s := states[n];
            && (s.inFlight.Some? ==>
                  && s.inFlight.value.request == s.generation && s.generation in s.requests
                  && s.requests[s.generation].scope == s.inFlight.value.scope && s.requests[s.generation].answer.None?)
            && (s.busy <==> s.inFlight.Some?)
            && (!s.busy ==> Newest(s).Some? && s.screen == EditedAll(Newest(s).value, s.edits))
  {
    RunsAreGood(states, n);
  }

  /** An answer to any request but the newest changes nothing that is shown, and ends nothing. */
  lemma StaleAnswersShowNothing(states: seq<State>, n: nat, request: nat, answer: Result<Listing>)
    requires IsRun(states) && n < |states| && Enabled(states[n], Answer(request, answer)) && request != states[n].generation
    ensures var s, s' := states[n], Next(states[n], Answer(request, answer));
            s'.screen == s.screen && s'.busy == s.busy && s'.inFlight == s.inFlight
  {
    RunsAreGood(states, n);
  }

  /** The newest request's answer goes on the screen with its scope, a failure as an empty list; the list is idle then. */
  lemma NewestAnswerShows(states: seq<State>, n: nat, answer: Result<Listing>)
    requires IsRun(states) && n < |states| && Enabled(states[n], Answer(states[n].generation, answer))
    ensures var s, s' := states[n], Next(states[n], Answer(states[n].generation, answer));
            && s'.screen.scope == Some(s.requests[s.generation].scope) && !s'.busy
            && (answer.Ok? ==> s'.screen.runs == answer.value) && (answer.Err? ==> s'.screen.runs == [])
  {
    hide Edited, EditedAll;
    RunsAreGood(states, n);
  }

  /**
   * A refresh is suppressed exactly while the newest request is for the same scope and unanswered.
   * Otherwise it becomes the newest request and leaves the list alone, or, without a scope, empties it.
   */
  lemma RefreshIsSuppressedExactly(states: seq<State>, n: nat, scope: Option<Scope>)
    requires IsRun(states) && n < |states|
    ensures var s, s' := states[n], Next(states[n], Refresh(scope));
            if scope.Some? && s.generation in s.requests && s.requests[s.generation] == Request(scope.value, None) then s' == s
            else
              && s'.generation == s.generation + 1
              && s'.screen == (if scope.None? then EMPTY else s.screen)
              && s'.inFlight == (if scope.None? then None else Some(InFlight(scope.value, s'.generation)))
              && (scope.Some? ==> s'.generation in s'.requests && s'.requests[s'.generation] == Request(scope.value, None))
              && (scope.None? ==> Newest(s') == Some(EMPTY))
  {
    hide Edited, EditedAll;
    RunsAreGood(states, n);
  }

  /** An update that takes effect puts the run in its place, or at the end if it is new, and touches no other entry. */
  lemma PatchTouchesOneEntry(screen: Screen, run: Run)
    requires forall r :: r in screen.runs ==> r.remote
    ensures var before, after := screen.runs, Edited(screen, Patch(run, true)).runs;
            var i := if IndexOf(before, run.id) < 0 then |before| else IndexOf(before, run.id);
            && |after| == (if i < |before| then |before| else |before| + 1)
            && after[i] == run && IndexOf(after, run.id) == i
            && forall k :: 0 <= k < |before| && k != i ==> after[k] == before[k]
  {
    var before, after := screen.runs, Edited(screen, Patch(run, true)).runs;
    var i := if IndexOf(before, run.id) < 0 then |before| else IndexOf(before, run.id);
    assert after[i].id == run.id && forall j :: 0 <= j < i ==> after[j].id != run.id;
  }

  predicate Effective(screen: Screen, edit: Edit) {
    match edit
    case Clear => screen != EMPTY
    case Patch(run, scoped) =>
      && scoped && (forall r :: r in screen.runs ==> r.remote)
      && (IndexOf(screen.runs, run.id) < 0 || screen.runs[IndexOf(screen.runs, run.id)] != run)
  }

  /** An edit changes the screen exactly when it clears something, or brings news of a run to an all-remote list. */
  lemma EditChangesExactly(screen: Screen, edit: Edit)
    ensures Edited(screen, edit) != screen <==> Effective(screen, edit)
  {
    if edit.Patch? && edit.scoped {
      var i := IndexOf(screen.runs, edit.run.id);
      if i >= 0 { assert screen.runs[i := edit.run][i] == edit.run; }
      else { assert |screen.runs + [edit.run]| == |screen.runs| + 1; }
    }
  }

  /** The scope label of an idle list is the newest request's exactly when the list was not cleared since, or had none. */
  lemma LabelIsNewestExactly(states: seq<State>, n: nat)
    requires IsRun(states) && n < |states| && !states[n].busy
    ensures Newest(states[n]).Some?
    ensures states[n].screen.scope == Newest(states[n]).value.scope <==>
              Clear !in states[n].edits || Newest(states[n]).value.scope.None?
  {
    RunsAreGood(states, n);
    LabelAfter(states[n].base, states[n].edits);
  }

  lemma {:induction false} LabelAfter(screen: Screen, edits: seq<Edit>)
    ensures EditedAll(screen, edits).scope == if Clear in edits then None else screen.scope
  {
    if edits != [] {
      var last := |edits| - 1;
      LabelAfter(screen, edits[..last]);
      assert edits == edits[..last] + [edits[last]];
    }
  }

  /**
   * An idle list shows exactly the newest answer when nothing was written past it, and the first
   * effective write past it parts the two: from the answer on, as long as no edit takes effect,
   * list and answer are the same.
   */
  lemma {:induction false} ShowsNewestUntilEdited(states: seq<State>, n: nat, k: nat)
    requires IsRun(states) && n < |states| && !states[n].busy && k <= |states[n].edits|
    requires forall i :: 0 <= i < k ==> !Effective(states[n].base, states[n].edits[i])
    ensures Newest(states[n]) == Some(states[n].base)
    ensures EditedAll(states[n].base, states[n].edits[..k]) == states[n].base
    ensures k == |states[n].edits| ==> states[n].screen == Newest(states[n]).value
    ensures k < |states[n].edits| && Effective(states[n].base, states[n].edits[k]) ==>
              EditedAll(states[n].base, states[n].edits[..k + 1]) != Newest(states[n]).value
  {
    hide Edited, Effective;
    var base, edits := states[n].base, states[n].edits;
    RunsAreGood(states, n);
    if k > 0 {
      ShowsNewestUntilEdited(states, n, k - 1);
      EditChangesExactly(base, edits[k - 1]);
      assert edits[..k][..k - 1] == edits[..k - 1];
    }
    if k == |edits| { assert edits[..k] == edits; }
    else {
      EditChangesExactly(base, edits[k]);
      assert edits[..k + 1][..k] == edits[..k];
    }
  }

  lemma Extend(states: seq<State>, a: Action) returns (longer: seq<State>)
    requires IsRun(states) && Enabled(states[|states| - 1], a)
    ensures IsRun(longer) && |longer| == |states| + 1
    ensures longer[|states|] == Next(states[|states| - 1], a)
  {
    hide Next, Enabled;
    longer := states + [Next(states[|states| - 1], a)];
    forall i | 0 <= i < |longer| - 1
      ensures Step(longer[i], longer[i + 1])
    {
      if i < |states| - 1 { assert Step(states[i], states[i + 1]); }
    }
  }

  /** A run in which an idle list does not show the newest answer: the service was disconnected after it. */
  lemma DisconnectHidesAnswer(scope: Scope, runs: Listing) returns (states: seq<State>)
    ensures IsRun(states)
    ensures var s := states[|states| - 1];
            !s.busy && Newest(s) == Some(Screen(runs, Some(scope))) && s.screen == EMPTY
  {
    var s0 := State(0, None, false, EMPTY, map[], EMPTY, []);
    assert IsRun([s0]);
    hide IsRun;
    states := Extend([s0], Refresh(Some(scope)));
    states := Extend(states, Answer(1, Ok(runs)));
    states := Extend(states, Outside(Clear));
  }
}
