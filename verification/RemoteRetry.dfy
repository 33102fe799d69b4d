/**
 * Whole runs of remote tool calls over a network that loses and delays messages, against a server
 * that keeps a receipt of each request id it performed. A call is `call_tool`: send, and after a
 * reconnectable error reconnect and send the same arguments once more. The server drops finished
 * receipts by age and count whenever its store is opened, and the oldest one when a new request
 * finds its owner at capacity; it refuses a new request whose workspace is full all the same.
 */
module RemoteRetry {

  import opened Wrappers
  import RemoteCalls

  type CallId = nat

  /** A request id in the workspace it belongs to. */
  datatype RequestId = RequestId(workspace: nat, id: string)

  /** `request` is the argument the server deduplicates on; some tools have none. */
  datatype Arguments = Arguments(tool: string, body: string, request: Option<RequestId>)

  datatype Message = Message(call: CallId, arguments: Arguments)

  datatype Pc =
    | First(message: nat)
    | Reconnecting(error: string)
    | Second(message: nat, error: string)
    | Over

  datatype Call = Call(arguments: Arguments, pc: Pc, sends: nat)

  /** What the server did, in order: performed a message, or dropped the receipt of a request id. */
  datatype Event = Performed(message: nat, id: Option<RequestId>) | Pruned(request: RequestId)

  /** `finished` is whether the mutation is complete or failed and no run of it is active; `created` orders receipts. */
  datatype Receipt = Receipt(arguments: Arguments, finished: bool, created: nat)

  /** The receipts are those of one owner. `legacy` are ids reserved by receipts of an older format. */
  datatype State = State(
    calls: map<CallId, Call>,
    sent: seq<Message>,
    received: set<nat>,
    answered: set<nat>,
    receipts: map<RequestId, Receipt>,
    legacy: set<RequestId>,
    log: seq<Event>)

  /** Bound on an owner's receipts before one is dropped, and on those of one workspace. */
  const MAX_RECEIPTS := 4096

  datatype Action =
    | Begin(call: CallId, arguments: Arguments)
    | Receive(message: nat, victim: Option<RequestId>, stored: bool)
    | Finish(request: RequestId)
    | Prune(request: RequestId)
    | Respond(message: nat)
    | Reply(call: CallId)
    | Error(call: CallId, error: string)
    | Reconnect(call: CallId, ok: bool)

  ghost predicate Init(s: State) {
    s == State(map[], [], {}, {}, map[], s.legacy, [])
  }

  predicate Oldest(s: State, request: RequestId) {
    && request in s.receipts && s.receipts[request].finished
    && forall r :: r in s.receipts && s.receipts[r].finished ==> s.receipts[request].created <= s.receipts[r].created
  }

  /** What a claim drops first: the oldest finished receipt, if the id is new, the owner at capacity and there is one. */
  predicate MakesRoom(s: State, message: nat, victim: Option<RequestId>)
    requires message < |s.sent|
  {
    var request := s.sent[message].arguments.request;
    if && request.Some? && request.value !in s.receipts && |s.receipts| >= MAX_RECEIPTS
       && exists r :: r in s.receipts && s.receipts[r].finished
    then victim.Some? && Oldest(s, victim.value)
    else victim.None?
  }

  function InWorkspace(receipts: map<RequestId, Receipt>, workspace: nat): set<RequestId> {
    set r | r in receipts && r.workspace == workspace
  }

  /** A new id is admitted when it is not reserved and its workspace has a free slot after what was dropped. */
  predicate Admits(s: State, victim: Option<RequestId>, request: RequestId) {
    && request !in s.legacy
    && |InWorkspace(Dropped(s, victim).receipts, request.workspace)| < MAX_RECEIPTS
  }

  function Dropped(s: State, victim: Option<RequestId>): State {
    if victim.None? then s else s.(receipts := s.receipts - {victim.value}, log := s.log + [Pruned(victim.value)])
  }

  predicate Enabled(s: State, a: Action) {
    match a
    case Begin(call, _) => call !in s.calls
    case Receive(message, victim, _) => message < |s.sent| && message !in s.received && MakesRoom(s, message, victim)
    case Finish(request) => request in s.receipts
    case Prune(request) => request in s.receipts && s.receipts[request].finished
    case Respond(message) => message in s.received
    case Reply(call) =>
      call in s.calls && (s.calls[call].pc.First? || s.calls[call].pc.Second?) && s.calls[call].pc.message in s.answered
    case Error(call, _) => call in s.calls && (s.calls[call].pc.First? || s.calls[call].pc.Second?)
    case Reconnect(call, _) => call in s.calls && s.calls[call].pc.Reconnecting?
  }

  function At(s: State, call: CallId, pc: Pc): State
    requires call in s.calls
  {
    s.(calls := s.calls[call := s.calls[call].(pc := pc)])
  }

  /**
   * `claim_idempotency`: an id with a receipt is replayed, awaited or refused, never performed; a
   * new one is performed if it is admitted and its receipt is written, which `stored` decides.
   */
  function NextReceive(s: State, message: nat, victim: Option<RequestId>, stored: bool): State
    requires message < |s.sent|
  {
    var arguments := s.sent[message].arguments;
    var s1 := s.(received := s.received + {message});
    if arguments.request.None? then s1.(log := s.log + [Performed(message, None)])
    else if arguments.request.value in s.receipts then s1
    else
      var s2 := Dropped(s1, victim);
      if !Admits(s, victim, arguments.request.value) || !stored then s2
      else
        s2.(log := s2.log + [Performed(message, arguments.request)],
            receipts := s2.receipts[arguments.request.value := Receipt(arguments, false, |s2.log|)])
  }

  function Next(s: State, a: Action): State
    requires Enabled(s, a)
  {
    match a
    case Begin(call, arguments) =>
      s.(calls := s.calls[call := Call(arguments, First(|s.sent|), 1)], sent := s.sent + [Message(call, arguments)])
    case Receive(message, victim, stored) => NextReceive(s, message, victim, stored)
    case Finish(request) => s.(receipts := s.receipts[request := s.receipts[request].(finished := true)])
    case Prune(request) => s.(receipts := s.receipts - {request}, log := s.log + [Pruned(request)])
    case Respond(message) => s.(answered := s.answered + {message})
    case Reply(call) => At(s, call, Over)
    case Error(call, error) =>
      if s.calls[call].pc.First? && RemoteCalls.ShouldReconnect(error) then At(s, call, Reconnecting(error))
      else At(s, call, Over)
    case Reconnect(call, ok) =>
      if !ok then At(s, call, Over)
      else
        var c := s.calls[call];
        s.(calls := s.calls[call := Call(c.arguments, Second(|s.sent|, c.pc.error), c.sends + 1)],
           sent := s.sent + [Message(call, c.arguments)])
  }

  ghost predicate Step(s: State, s': State) {
    exists a :: Enabled(s, a) && s' == Next(s, a)
  }

  ghost predicate IsRun(states: seq<State>) {
    && |states| > 0
    && Init(states[0])
    && forall i :: 0 <= i < |states| - 1 ==> Step(states[i], states[i + 1])
  }

  // ---------------------------------------------------------------- invariant

  /** How many of the messages sent so far belong to a call. */
  function Sends(sent: seq<Message>, call: CallId): nat {
    if sent == [] then 0
    else Sends(sent[..|sent| - 1], call) + if sent[|sent| - 1].call == call then 1 else 0
  }

  predicate GoodCall(s: State, call: CallId)
    requires call in s.calls
  {
    var c := s.calls[call];
    && Sends(s.sent, call) == c.sends
    && (c.pc.First? || c.pc.Reconnecting? ==> c.sends == 1)
    && c.sends <= 2
    && (c.pc.Reconnecting? || c.pc.Second? ==> RemoteCalls.ShouldReconnect(c.pc.error))
    && (c.pc.First? || c.pc.Second? ==> c.pc.message < |s.sent|)
  }

  predicate Performs(e: Event, request: RequestId) {
    e.Performed? && e.id == Some(request)
  }

  /** A request id was performed and its receipt has not been dropped since. */
  predicate Remembered(log: seq<Event>, request: RequestId) {
    log != [] &&
    (Performs(log[|log| - 1], request) || (log[|log| - 1] != Pruned(request) && Remembered(log[..|log| - 1], request)))
  }

  ghost predicate GoodLog(s: State) {
    && (forall k :: 0 <= k < |s.log| && s.log[k].Performed? ==>
          && s.log[k].message < |s.sent| && s.log[k].message in s.received
          && s.log[k].id == s.sent[s.log[k].message].arguments.request)
    && (forall k, l :: 0 <= k < l < |s.log| && s.log[k].Performed? && s.log[l].Performed? ==>
          s.log[k].message != s.log[l].message)
    && (forall request :: request in s.receipts <==> Remembered(s.log, request))
    && (forall l, request :: 0 <= l < |s.log| && Performs(s.log[l], request) ==> !Remembered(s.log[..l], request))
  }

  ghost predicate GoodCalls(s: State) {
    && (forall call :: call in s.calls ==> GoodCall(s, call))
    && (forall i :: 0 <= i < |s.sent| ==>
          s.sent[i].call in s.calls && s.sent[i].arguments == s.calls[s.sent[i].call].arguments)
  }

  ghost predicate Good(s: State) {
    GoodCalls(s) && GoodLog(s)
  }

  lemma {:induction false} UnsentCall(s: State, n: nat, call: CallId)
    requires GoodCalls(s) && call !in s.calls && n <= |s.sent|
    ensures Sends(s.sent[..n], call) == 0
  {
    if n > 0 {
      assert s.sent[..n][..n - 1] == s.sent[..n - 1];
      UnsentCall(s, n - 1, call);
    }
  }

  /** Sending a message for a call leaves the accounts of every other call as they were. */
  lemma SendKeepsOthers(s: State, s': State, call: CallId, arguments: Arguments)
    requires GoodCalls(s) && s'.sent == s.sent + [Message(call, arguments)]
    requires forall c :: c in s.calls && c != call ==> c in s'.calls && s'.calls[c] == s.calls[c]
    ensures forall c :: c in s.calls && c != call ==> GoodCall(s', c)
    ensures Sends(s'.sent, call) == Sends(s.sent, call) + 1
  {
    hide RemoteCalls.ShouldReconnect;
  }

  /** Nothing of the server's record depends on later messages. */
  lemma SendKeepsLog(s: State, s': State)
    requires GoodLog(s) && s.sent <= s'.sent
    requires s'.received == s.received && s'.receipts == s.receipts && s'.log == s.log
    ensures GoodLog(s')
  {
    hide Remembered;
  }

  lemma BeginKeepsGood(s: State, call: CallId, arguments: Arguments)
    requires Good(s) && Enabled(s, Begin(call, arguments))
    ensures Good(Next(s, Begin(call, arguments)))
  {
    hide RemoteCalls.ShouldReconnect, Sends, GoodLog;
    var s' := Next(s, Begin(call, arguments));
    assert s.sent[..|s.sent|] == s.sent;
    UnsentCall(s, |s.sent|, call);
    SendKeepsOthers(s, s', call, arguments);
    SendKeepsLog(s, s');
  }

  lemma ReconnectKeepsGood(s: State, call: CallId, ok: bool)
    requires Good(s) && Enabled(s, Reconnect(call, ok))
    ensures Good(Next(s, Reconnect(call, ok)))
  {
    hide RemoteCalls.ShouldReconnect, Sends, GoodLog;
    var s' := Next(s, Reconnect(call, ok));
    assert GoodCall(s, call);
    SendKeepsLog(s, s');
    if ok {
      SendKeepsOthers(s, s', call, s.calls[call].arguments);
    } else {
      assert forall c :: c in s.calls && GoodCall(s, c) ==> GoodCall(s', c);
    }
  }

  lemma SameCalls(s: State, s': State)
    requires GoodCalls(s) && s'.calls == s.calls && s'.sent == s.sent
    ensures GoodCalls(s')
  {
    hide RemoteCalls.ShouldReconnect, Sends;
    assert forall call :: call in s.calls && GoodCall(s, call) ==> GoodCall(s', call);
  }

  /** One more event: what is remembered, and that nothing remembered is performed. */
  lemma EventKeepsLog(s: State, s': State, e: Event)
    requires GoodLog(s) && s'.log == s.log + [e] && s'.sent == s.sent && s.received <= s'.received
    requires e.Performed? ==> && e.message < |s.sent| && e.message in s'.received && e.message !in s.received
                              && e.id == s.sent[e.message].arguments.request
                              && (e.id.Some? ==> e.id.value !in s.receipts)
    requires forall r :: r in s'.receipts <==> (Performs(e, r) || (e != Pruned(r) && r in s.receipts))
    ensures GoodLog(s')
  {
    assert s'.log[..|s.log|] == s.log;
    assert forall l :: 0 <= l < |s.log| ==> s'.log[..l] == s.log[..l];
  }

  lemma DropKeepsLog(s: State, victim: Option<RequestId>)
    requires GoodLog(s) && (victim.Some? ==> victim.value in s.receipts)
    ensures GoodLog(Dropped(s, victim))
  {
    if victim.Some? {
      EventKeepsLog(s, Dropped(s, victim), Pruned(victim.value));
    }
  }

  lemma ReceiveKeepsLog(s: State, message: nat, victim: Option<RequestId>, stored: bool)
    requires GoodLog(s) && Enabled(s, Receive(message, victim, stored))
    ensures GoodLog(NextReceive(s, message, victim, stored))
  {
    hide GoodLog, Admits;
    var arguments, s' := s.sent[message].arguments, NextReceive(s, message, victim, stored);
    if arguments.request.None? {
      EventKeepsLog(s, s', Performed(message, None));
    } else if arguments.request.value in s.receipts {
      QuietKeepsLog(s, s');
    } else {
      var dropped := Dropped(s, victim);
      DropKeepsLog(s, victim);
      if !Admits(s, victim, arguments.request.value) || !stored {
        QuietKeepsLog(dropped, s');
      } else {
        EventKeepsLog(dropped, s', Performed(message, arguments.request));
      }
    }
  }

  lemma ServerKeepsGood(s: State, a: Action)
    requires Good(s) && Enabled(s, a) && (a.Receive? || a.Finish? || a.Prune? || a.Respond?)
    ensures Good(Next(s, a))
  {
    hide GoodCalls, GoodLog;
    var s' := Next(s, a);
    SameCalls(s, s');
    match a
    case Receive(message, victim, stored) => ReceiveKeepsLog(s, message, victim, stored);
    case Prune(request) => EventKeepsLog(s, s', Pruned(request));
    case _ => QuietKeepsLog(s, s');
  }

  lemma QuietKeepsLog(s: State, s': State)
    requires GoodLog(s) && s'.sent == s.sent && s'.log == s.log && s.received <= s'.received
    requires s'.receipts.Keys == s.receipts.Keys
    ensures GoodLog(s')
  {
    hide Remembered;
    assert forall r :: r in s'.receipts <==> r in s.receipts.Keys;
  }

  lemma AnswerKeepsGood(s: State, a: Action)
    requires Good(s) && Enabled(s, a) && (a.Reply? || a.Error?)
    ensures Good(Next(s, a))
  {
    hide RemoteCalls.ShouldReconnect, Sends, GoodLog;
    var s' := Next(s, a);
    SendKeepsLog(s, s');
    forall call | call in s'.calls
      ensures GoodCall(s', call)
    {
      assert GoodCall(s, call);
    }
  }

  lemma {:induction false} RunsAreGood(states: seq<State>, n: nat)
    requires IsRun(states) && n < |states|
    ensures Good(states[n])
  {
    if n > 0 {
      hide Good, Next, Enabled;
      RunsAreGood(states, n - 1);
      assert Step(states[n - 1], states[n - 1 + 1]);
      var a :| Enabled(states[n - 1], a) && states[n] == Next(states[n - 1], a);
      if a.Begin? { BeginKeepsGood(states[n - 1], a.call, a.arguments); }
      else if a.Reconnect? { ReconnectKeepsGood(states[n - 1], a.call, a.ok); }
      else if a.Reply? || a.Error? { AnswerKeepsGood(states[n - 1], a); }
      else { ServerKeepsGood(states[n - 1], a); }
    }
  }

  // ------------------------------------------------------------- main results

  /**
   * In every run a call sends at most two messages, all with its own arguments, and the second
   * only after an error that the classification calls reconnectable.
   */
  lemma AtMostTwoIdenticalSends(states: seq<State>, n: nat, call: CallId, i: nat)
    requires IsRun(states) && n < |states| && call in states[n].calls
    ensures Sends(states[n].sent, call) <= 2
    ensures i < |states[n].sent| && states[n].sent[i].call == call ==>
              states[n].sent[i].arguments == states[n].calls[call].arguments
    ensures states[n].calls[call].pc.Second? ==> RemoteCalls.ShouldReconnect(states[n].calls[call].pc.error)
  {
    hide RemoteCalls.ShouldReconnect, GoodLog;
    RunsAreGood(states, n);
    assert GoodCall(states[n], call);
  }

  /**
   * A call whose first attempt ends in a reconnectable error and whose reconnect succeeds sends its
   * arguments again; after any other error, and after a reconnect that fails, it is over.
   */
  lemma ReconnectSendsAgain(s: State, call: CallId, error: string, ok: bool)
    requires call in s.calls && s.calls[call].pc.First?
    ensures Enabled(s, Error(call, error))
    ensures var s1 := Next(s, Error(call, error));
            if !RemoteCalls.ShouldReconnect(error) then s1.calls[call].pc.Over? && s1.sent == s.sent
            else
              && Enabled(s1, Reconnect(call, ok))
              && var s2, arguments := Next(s1, Reconnect(call, ok)), s.calls[call].arguments;
                 if ok then
                   && s2.sent == s.sent + [Message(call, arguments)] && Sends(s2.sent, call) == Sends(s.sent, call) + 1
                   && s2.calls[call] == Call(arguments, Second(|s.sent|, error), s.calls[call].sends + 1)
                 else s2.sent == s.sent && s2.calls[call].pc.Over?
  {
    hide RemoteCalls.ShouldReconnect;
    assert (s.sent + [Message(call, s.calls[call].arguments)])[..|s.sent|] == s.sent;
  }

  /** A call whose message is answered is over, with nothing sent again. */
  lemma AnsweredCallEnds(s: State, call: CallId)
    requires call in s.calls && (s.calls[call].pc.First? || s.calls[call].pc.Second?)
    requires s.calls[call].pc.message in s.received
    ensures var s1 := Next(s, Respond(s.calls[call].pc.message));
            && Enabled(s1, Reply(call))
            && Next(s1, Reply(call)).calls[call].pc.Over? && Next(s1, Reply(call)).sent == s.sent
  {
  }

  /** A receipt goes only once its mutation is finished, and a finished one can go. */
  lemma UnfinishedIsKept(s: State, a: Action, request: RequestId)
    requires Enabled(s, a) && request in s.receipts
    ensures !s.receipts[request].finished ==> request in Next(s, a).receipts
    ensures Enabled(Next(s, Finish(request)), Prune(request))
  {
    hide RemoteCalls.ShouldReconnect, Admits;
  }

  /** Messages of a call are sent by beginning it and by its successful reconnect, and by nothing else. */
  lemma SendsGrowExactly(s: State, a: Action, call: CallId)
    requires Enabled(s, a)
    ensures s.sent <= Next(s, a).sent
    ensures Sends(Next(s, a).sent, call)
         == Sends(s.sent, call) + if (a.Begin? && a.call == call) || a == Reconnect(call, true) then 1 else 0
  {
    hide RemoteCalls.ShouldReconnect, Admits;
    var s' := Next(s, a);
    if |s'.sent| > |s.sent| { assert s'.sent[..|s.sent|] == s.sent; }
  }

  /** A request id was performed and its receipt not dropped since, said over the record. */
  ghost predicate Kept(log: seq<Event>, request: RequestId) {
    exists k :: 0 <= k < |log| && Performs(log[k], request) && forall m :: k < m < |log| ==> log[m] != Pruned(request)
  }

  /** What the server remembers, said over the whole record. */
  lemma {:induction false} RememberedExactly(log: seq<Event>, request: RequestId)
    ensures Remembered(log, request) <==> Kept(log, request)
  {
    if log != [] {
      var front, last := log[..|log| - 1], |log| - 1;
      RememberedExactly(front, request);
      if k :| 0 <= k < |front| && Performs(front[k], request) && forall m :: k < m < |front| ==> front[m] != Pruned(request) {
        assert Performs(log[k], request);
      }
      if k :| 0 <= k < last && Performs(log[k], request) && forall m :: k < m < |log| ==> log[m] != Pruned(request) {
        assert Performs(front[k], request);
      }
    }
  }

  /**
   * Whatever was lost, delayed or sent again, a message that reaches the server is performed
   * exactly when it carries no request id, or one that is not kept on record (never performed, or
   * its receipt dropped since), not reserved, with a free slot in its workspace after the claim
   * dropped what it could, and whose receipt can be written.
   */
  lemma PerformedExactly(states: seq<State>, n: nat, message: nat, victim: Option<RequestId>, stored: bool)
    requires IsRun(states) && n < |states| && Enabled(states[n], Receive(message, victim, stored))
    ensures var s, request := states[n], states[n].sent[message].arguments.request;
            (exists k :: 0 <= k < |Next(s, Receive(message, victim, stored)).log|
                         && Next(s, Receive(message, victim, stored)).log[k] == Performed(message, request)) <==>
              || request.None?
              || (&& !Kept(s.log, request.value) && request.value !in s.legacy && stored
                  && |InWorkspace(Dropped(s, victim).receipts, request.value.workspace)| < MAX_RECEIPTS)
  {
    hide GoodCalls, Performs, InWorkspace;
    RunsAreGood(states, n);
    var s, request := states[n], states[n].sent[message].arguments.request;
    var s' := Next(s, Receive(message, victim, stored));
    if request.Some? { RememberedExactly(s.log, request.value); }
    if request.None? || (request.value !in s.receipts && Admits(s, victim, request.value) && stored) {
      assert s'.log[|s'.log| - 1] == Performed(message, request);
    }
  }

  /** A full workspace with nothing to drop refuses every new request. */
  lemma FullWorkspaceRefuses(s: State, message: nat, victim: Option<RequestId>, stored: bool)
    requires Enabled(s, Receive(message, victim, stored))
    requires var request := s.sent[message].arguments.request;
             && request.Some? && request.value !in s.receipts
             && |InWorkspace(s.receipts, request.value.workspace)| >= MAX_RECEIPTS
    requires forall r :: r in s.receipts ==> !s.receipts[r].finished
    ensures Next(s, Receive(message, victim, stored)) == s.(received := s.received + {message})
  {
  }

  /** Distinct ids: texts of distinct lengths. */
  function Name(i: nat): string {
    seq(i, _ => 'a')
  }

  /** After `n` calls with pending mutations: their receipts, and nothing else, take `n` slots of one workspace. */
  ghost predicate Filled(s: State, n: nat) {
    && s.legacy == {} && (forall call :: call in s.calls ==> call < n) && (forall m :: m in s.received ==> m < |s.sent|)
    && s.receipts.Keys == InWorkspace(s.receipts, 0) && |InWorkspace(s.receipts, 0)| == n
    && (forall r :: r in s.receipts ==> |r.id| < n && !s.receipts[r].finished)
  }

  /** One more call that begins, is received and stays pending. */
  function Began(s: State, call: CallId, request: RequestId): State {
    var arguments := Arguments("", "", Some(request));
    s.(calls := s.calls[call := Call(arguments, First(|s.sent|), 1)], sent := s.sent + [Message(call, arguments)])
  }

  lemma ReceivedFills(s: State, n: nat, request: RequestId)
    requires Filled(s, n) && n < MAX_RECEIPTS && request.workspace == 0 && |request.id| == n
    ensures Enabled(s, Begin(n, Arguments("", "", Some(request))))
    ensures Enabled(Began(s, n, request), Receive(|s.sent|, None, true))
    ensures Filled(NextReceive(Began(s, n, request), |s.sent|, None, true), n + 1)
  {
    var s1, s2 := Began(s, n, request), NextReceive(Began(s, n, request), |s.sent|, None, true);
    assert |s.receipts| == |s.receipts.Keys| == n && request !in s.receipts;
    assert Admits(s1, None, request);
    assert InWorkspace(s2.receipts, 0) == InWorkspace(s.receipts, 0) + {request};
  }

  lemma {:induction false} FillUp(n: nat) returns (states: seq<State>)
    requires n <= MAX_RECEIPTS
    ensures IsRun(states) && |states| > 0 && Filled(states[|states| - 1], n)
  {
    hide Filled, IsRun, Enabled, NextReceive;
    if n == 0 {
      var s0 := State(map[], [], {}, {}, map[], {}, []);
      states := [s0];
      assert IsRun(states) by { StartIsRun(s0); }
      assert Filled(s0, 0) by { EmptyIsFilled(s0); }
    } else {
      states := FillUp(n - 1);
      var s, request := states[|states| - 1], RequestId(0, Name(n - 1));
      ReceivedFills(s, n - 1, request);
      states := Extend(states, Begin(n - 1, Arguments("", "", Some(request))));
      states := Extend(states, Receive(|s.sent|, None, true));
    }
  }

  lemma EmptyIsFilled(s: State)
    requires s == State(map[], [], {}, {}, map[], {}, [])
    ensures Filled(s, 0)
  {
    assert InWorkspace(s.receipts, 0) == {};
  }

  /** The refusal is reached: a run in which a request that was never performed arrives and is not performed. */
  lemma NewRequestIsRefused() returns (states: seq<State>, message: nat)
    ensures IsRun(states)
    ensures var s := states[|states| - 1];
            && Enabled(s, Receive(message, None, true))
            && s.sent[message].arguments.request.Some? && !Kept(s.log, s.sent[message].arguments.request.value)
            && Next(s, Receive(message, None, true)).log == s.log
  {
    hide IsRun, Kept;
    states := FillUp(MAX_RECEIPTS);
    var s, request := states[|states| - 1], RequestId(0, Name(MAX_RECEIPTS));
    assert |request.id| == MAX_RECEIPTS;
    message := |s.sent|;
    states := Extend(states, Begin(MAX_RECEIPTS, Arguments("", "", Some(request))));
    var s1 := states[|states| - 1];
    assert s1.receipts == s.receipts && request !in s1.receipts;
    FullWorkspaceRefuses(s1, message, None, true);
    assert !Kept(s1.log, request) by {
      GoodAtEnd(states, request);
      RememberedExactly(s1.log, request);
    }
  }

  lemma GoodAtEnd(states: seq<State>, request: RequestId)
    requires IsRun(states)
    ensures request in states[|states| - 1].receipts <==> Remembered(states[|states| - 1].log, request)
  {
    hide Remembered, GoodCalls;
    RunsAreGood(states, |states| - 1);
  }

  ghost predicate DroppedBetween(log: seq<Event>, k: nat, l: nat, request: RequestId)
    requires l <= |log|
  {
    exists m :: k < m < l && log[m] == Pruned(request)
  }

  /** Between two performances of one request id its receipt was dropped. */
  lemma PerformedAgainOnlyIfPruned(states: seq<State>, n: nat, k: nat, l: nat, request: RequestId)
    requires IsRun(states) && n < |states| && k < l < |states[n].log|
    requires Performs(states[n].log[k], request) && Performs(states[n].log[l], request)
    ensures DroppedBetween(states[n].log, k, l, request)
  {
    RunsAreGood(states, n);
    var front := states[n].log[..l];
    RememberedExactly(front, request);
    assert Performs(front[k], request);
    var m :| k < m < |front| && front[m] == Pruned(request);
    assert states[n].log[m] == Pruned(request);
  }

  /** A call has two effects only if it carries no request id, or its receipt was dropped in between. */
  lemma OneEffectPerCall(states: seq<State>, n: nat, k: nat, l: nat)
    requires IsRun(states) && n < |states| && k < l < |states[n].log|
    requires states[n].log[k].Performed? && states[n].log[l].Performed?
    ensures var s := states[n];
            && s.log[k].message < |s.sent| && s.log[l].message < |s.sent|
            && (s.sent[s.log[k].message].call == s.sent[s.log[l].message].call ==>
                  && s.log[k].id == s.log[l].id
                  && (s.log[k].id.None? || DroppedBetween(s.log, k, l, s.log[k].id.value)))
  {
    hide Remembered, RemoteCalls.ShouldReconnect;
    RunsAreGood(states, n);
    var s := states[n];
    if s.log[k].id.Some? && s.log[k].id == s.log[l].id {
      PerformedAgainOnlyIfPruned(states, n, k, l, s.log[k].id.value);
    }
  }

  lemma Extend(states: seq<State>, a: Action) returns (longer: seq<State>)
    requires IsRun(states) && Enabled(states[|states| - 1], a)
    ensures IsRun(longer) && |longer| == |states| + 1
    ensures longer[|states|] == Next(states[|states| - 1], a)
  {
    hide Next, Enabled;
    longer := states + [Next(states[|states| - 1], a)];
    forall i | 0 <= i < |longer| - 1
      ensures Step(longer[i], longer[i + 1])
    {
      if i < |states| - 1 { assert Step(states[i], states[i + 1]); }
    }
  }

  /**
   * Without a request id the bound is two, and it is met for every call: one whose reply is lost is
   * performed again. Creating a session is such a call.
   */
  lemma UnnumberedCallRunsTwice(arguments: Arguments) returns (states: seq<State>)
    requires arguments.request.None?
    ensures IsRun(states)
    ensures var s := states[|states| - 1];
            s.log == [Performed(0, None), Performed(1, None)] && s.sent == [Message(0, arguments), Message(0, arguments)]
  {
    hide IsRun, RemoteCalls.ShouldReconnect;
    var error := "MCP transport error";
    RemoteCalls.ReconnectsExactly(RemoteCalls.Transport);
    var s0 := State(map[], [], {}, {}, map[], {}, []);
    assert IsRun([s0]) by { StartIsRun(s0); }
    states := Extend([s0], Begin(0, arguments));
    states := Extend(states, Receive(0, None, true));
    states := Extend(states, Error(0, error));
    assert states[3].calls[0].pc == Reconnecting(error);
    states := Extend(states, Reconnect(0, true));
    states := Extend(states, Receive(1, None, true));
  }

  lemma StartIsRun(s: State)
    requires Init(s)
    ensures IsRun([s])
  {
  }
}
