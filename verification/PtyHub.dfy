/**
 * The hub as a state machine over any number of sessions. A reader thread decodes and records
 * reads, flushes what is left at end of file, reaps its child and announces the exit; `kill` may
 * take the session away from it between any two of those steps.
 */
module PtyHub {

  import opened Wrappers
  import opened Utf8
  import opened PtyHost

  type Id = nat

  /** Where a reader thread is. The emitting phases hold an event whose lock is already released. */
  datatype Phase =
    | Reading
    | Emitting(event: Chunk)
    | Flushing
    | FlushEmitting(event: Chunk)
    | Reaping
    | Exiting
    | Done

  /**
   * One spawned terminal: its entry in the sessions map, if it is still there, and its reader
   * thread. The last four fields are histories no step consults: the reads that reached the
   * entry, the output events, the exit events, and the times the child was waited on.
   */
  datatype Terminal = Terminal(
    entry: Option<SessionState>,
    pending: Bytes,
    phase: Phase,
    raws: seq<Bytes>,
    outputs: seq<Chunk>,
    exits: nat,
    reaps: nat)

  type Hub = map<Id, Terminal>

  const SPAWNED := Terminal(Some(SessionState([], 0, false)), [], Reading, [], [], 0, 0)

  datatype Action = Read(raw: Bytes) | EndOfFile | Emit | Flush | Reap | Exit | Kill

  predicate Enabled(t: Terminal, a: Action) {
    match a
    case Read(raw) => t.phase.Reading? && 0 < |raw| <= READ_BUFFER
    case EndOfFile => t.phase.Reading?
    case Emit => t.phase.Emitting? || t.phase.FlushEmitting?
    case Flush => t.phase.Flushing?
    case Reap => t.phase.Reaping?
    case Exit => t.phase.Exiting?
    case Kill => t.entry.Some?
  }

  /** The entry leaves the map and its child is waited on, under one lock. */
  function Remove(t: Terminal): Terminal {
    if t.entry.Some? then t.(entry := None, reaps := t.reaps + 1) else t
  }

  function DoRead(t: Terminal, raw: Bytes): Terminal {
    var d := Commit(t.pending + raw);
    if t.entry.Some? && !t.entry.value.killed then
      var s := Recorded(t.entry.value, raw);
      t.(entry := Some(s),
         pending := d.pending,
         phase := if d.text == [] then Reading else Emitting(Chunk(d.text, s.lastSeq)),
         raws := t.raws + [raw])
    else
      t.(pending := d.pending, phase := Flushing)
  }

  function DoFlush(t: Terminal): Terminal {
    if t.pending == [] || t.entry.None? then t.(pending := [], phase := Reaping)
    else
      var s := Recorded(t.entry.value, Lossy(t.pending));
      t.(entry := Some(s), pending := [], phase := FlushEmitting(Chunk(Lossy(t.pending), s.lastSeq)))
  }

  function Next(t: Terminal, a: Action): Terminal
    requires Enabled(t, a)
  {
    match a
    case Read(raw) => DoRead(t, raw)
    case EndOfFile => t.(phase := Flushing)
    case Emit => t.(outputs := t.outputs + [t.phase.event], phase := if t.phase.Emitting? then Reading else Reaping)
    case Flush => DoFlush(t)
    case Reap => Remove(t).(phase := Exiting)
    case Exit => t.(exits := t.exits + 1, phase := Done)
    case Kill => Remove(t)
  }

  /** A step of the hub: a terminal is spawned under a new id, or one terminal takes a step. */
  ghost predicate Step(h: Hub, h': Hub) {
    || (exists id: Id :: id !in h && h' == h[id := SPAWNED])
    || (exists id: Id, a: Action :: id in h && Enabled(h[id], a) && h' == h[id := Next(h[id], a)])
  }

  ghost predicate Run(states: seq<Hub>) {
    |states| > 0 && forall i :: 0 < i < |states| ==> Step(states[i - 1], states[i])
  }

  // ----------------------------------------------------------------- invariant

  predicate BeforeFlush(phase: Phase) {
    phase.Reading? || phase.Emitting? || phase.Flushing?
  }

  /** The event of a read that is recorded but not yet emitted. */
  function Held(phase: Phase): seq<Chunk> {
    if phase.Emitting? then [phase.event] else []
  }

  /** The child is waited on when the entry leaves the map, and only then. */
  predicate Accounted(t: Terminal) {
    && t.reaps == (if t.entry.Some? then 0 else 1)
    && t.exits == (if t.phase.Done? then 1 else 0)
    && (t.entry.Some? ==> !t.entry.value.killed && !t.phase.Exiting? && !t.phase.Done?)
  }

  /** The entry after a run of reads. */
  function Mirror(raws: seq<Bytes>): SessionState {
    SessionState(LastBytes(Flatten(raws), PTY_BACKLOG_CAP), Number(|raws|), false)
  }

  /** Until the final flush a terminal mirrors its recorded reads. */
  predicate Mirrors(t: Terminal) {
    BeforeFlush(t.phase) ==>
      && (t.entry.Some? ==> t.entry.value == Mirror(t.raws))
      && (t.entry.Some? || !t.phase.Flushing? ==> t.pending == PushAll(t.raws).pending)
      && t.outputs + Held(t.phase) == EventsOf(t.raws)
  }

  /** The event the final flush owes: what the decoder still held, numbered after every read. */
  function FlushOf(raws: seq<Bytes>): seq<Chunk> {
    var held := PushAll(raws).pending;
    if held == [] then [] else [Chunk(Lossy(held), Number(|raws| + 1))]
  }

  /** After the flush a terminal that was not killed has emitted the events of its reads and the flush. */
  predicate Flushed(t: Terminal) {
    t.entry.Some? ==>
      && (t.phase.FlushEmitting? ==> t.outputs == EventsOf(t.raws) && FlushOf(t.raws) == [t.phase.event])
      && (t.phase.Reaping? ==> t.outputs == EventsOf(t.raws) + FlushOf(t.raws))
  }

  predicate Good(t: Terminal) {
    Accounted(t) && Mirrors(t) && Flushed(t)
  }

  // --------------------------------------------------------------- preservation

  /** Reading one more chunk into an entry that mirrors its reads. */
  lemma MirrorRead(raws: seq<Bytes>, raw: Bytes)
    requires raw != []
    ensures Recorded(Mirror(raws), raw) == Mirror(raws + [raw])
    ensures Mirror(raws + [raw]).lastSeq == Number(|raws| + 1)
    ensures var d := Commit(PushAll(raws).pending + raw);
            && PushAll(raws + [raw]).pending == d.pending
            && EventsOf(raws + [raw])
               == EventsOf(raws) + (if d.text == [] then [] else [Chunk(d.text, Number(|raws| + 1))])
  {
  }

  lemma ReadKeepsGood(t: Terminal, raw: Bytes)
    requires Good(t) && Enabled(t, Read(raw))
    ensures Good(DoRead(t, raw))
  {
    hide Commit, Lossy, Text, Recorded, PushAll, EventsOf;
    MirrorRead(t.raws, raw);
    assert EventsOf(t.raws) + [] == EventsOf(t.raws);
    assert t.outputs + [] == t.outputs;
  }

  lemma FlushKeepsGood(t: Terminal)
    requires Good(t) && t.phase.Flushing?
    ensures Good(DoFlush(t))
  {
    hide Commit, Lossy, PushAll, EventsOf, Appended;
    assert t.outputs + [] == t.outputs;
  }

  lemma StepKeepsGood(t: Terminal, a: Action)
    requires Good(t) && Enabled(t, a)
    ensures Good(Next(t, a))
    ensures t.raws <= Next(t, a).raws
  {
    hide Commit, Lossy, Text, PushAll, EventsOf;
    match a
    case Read(raw) => ReadKeepsGood(t, raw);
    case Flush => FlushKeepsGood(t);
    case Emit =>
      assert (t.outputs + [t.phase.event]) + [] == t.outputs + [t.phase.event];
    case _ =>
  }

  /** In every reachable hub every terminal is in order, and reads are only ever added to. */
  lemma {:induction false} RunKeepsGood(states: seq<Hub>, i: nat, j: nat, id: Id)
    requires Run(states) && states[0] == map[] && i <= j < |states|
    ensures id in states[j] ==> Good(states[j][id])
    ensures id in states[i] ==> id in states[j] && states[i][id].raws <= states[j][id].raws
    decreases j
  {
    hide Good, Next;
    SpawnedIsGood();
    if j > 0 {
      var h, h' := states[j - 1], states[j];
      assert Step(h, h');
      RunKeepsGood(states, if i < j then i else j - 1, j - 1, id);
      if k: Id, a: Action :| k in h && Enabled(h[k], a) && h' == h[k := Next(h[k], a)] {
        if k == id {
          StepKeepsGood(h[k], a);
        }
      }
    }
  }

  lemma SpawnedIsGood()
    ensures Good(SPAWNED)
  {
  }

  // --------------------------------------------------------------- main results

  /**
   * Reap exactly once: in every interleaving of kills and readers, an entry still in the map has
   * not been reaped and is not marked killed, one that left has been reaped exactly once, and a
   * reader that finished announced one exit, with its child reaped.
   */
  lemma ReapedExactlyOnce(states: seq<Hub>, j: nat, id: Id)
    requires Run(states) && states[0] == map[] && j < |states| && id in states[j]
    ensures var t := states[j][id];
            && (t.entry.Some? ==> !t.entry.value.killed && t.reaps == 0)
            && (t.entry.None? ==> t.reaps == 1)
            && t.exits <= 1
            && (t.exits == 1 <==> t.phase.Done?)
            && (t.phase.Done? ==> t.reaps == 1)
  {
    RunKeepsGood(states, j, j, id);
  }

  /**
   * Replay watermark over whole runs: a backlog taken in state `i` holds the last bytes of the
   * reads recorded so far and its watermark counts them; the events seen by state `j` that pass
   * the client's filter carry the rest of the stream, so that replay and live text spell it if
   * and only if no character was cut by the watermark.
   */
  lemma ReplayAcrossRuns(states: seq<Hub>, i: nat, j: nat, id: Id)
    requires Run(states) && states[0] == map[] && i <= j < |states| && id in states[i] && id in states[j]
    requires states[i][id].entry.Some? && BeforeFlush(states[i][id].phase)
    requires states[j][id].phase.Reading? && |states[j][id].raws| <= U64_MAX
    ensures var then_, now := states[i][id], states[j][id];
            && then_.entry.value.backlog == LastBytes(Flatten(then_.raws), PTY_BACKLOG_CAP)
            && then_.entry.value.lastSeq == |then_.raws|
            && (|Flatten(then_.raws)| <= PTY_BACKLOG_CAP ==>
                  var live := Text(Above(now.outputs, then_.entry.value.lastSeq));
                  (Lossy(then_.entry.value.backlog) + live + Lossy(now.pending) == Lossy(Flatten(now.raws))
                   <==> PushAll(then_.raws).pending == []))
  {
    hide Commit, Lossy, Text, Above, PushAll, EventsOf, LastBytes;
    RunKeepsGood(states, i, i, id);
    RunKeepsGood(states, i, j, id);
    var raws, w := states[j][id].raws, |states[i][id].raws|;
    assert raws[..w] == states[i][id].raws;
    assert states[j][id].outputs + [] == states[j][id].outputs;
    if |Flatten(raws[..w])| <= PTY_BACKLOG_CAP {
      ReplaySpellsStream(raws, w);
    }
  }

  /** A kill takes the entry and waits for the child; what the reader holds stays with the reader. */
  lemma KillTakesTheEntry(t: Terminal)
    requires Good(t) && Enabled(t, Kill)
    ensures Next(t, Kill) == t.(entry := None, reaps := 1)
  {
  }

  /** The event a reader is about to emit, read or flush. */
  function Due(phase: Phase): seq<Chunk> {
    if phase.Emitting? || phase.FlushEmitting? then [phase.event] else []
  }

  lemma KilledStep(t: Terminal, a: Action)
    requires t.entry.None? && Enabled(t, a)
    ensures var t' := Next(t, a);
            t'.entry.None? && t'.raws == t.raws && t'.outputs + Due(t'.phase) == t.outputs + Due(t.phase)
  {
    hide Commit, Lossy;
    assert t.outputs + Due(t.phase) + [] == t.outputs + Due(t.phase);
  }

  /**
   * Once its entry is gone a terminal records no read and, beyond an event already under way, emits
   * nothing: in no later state.
   */
  lemma {:induction false} KilledIsSilent(states: seq<Hub>, i: nat, j: nat, id: Id)
    requires Run(states) && i <= j < |states| && id in states[i] && states[i][id].entry.None?
    ensures id in states[j] && states[j][id].entry.None? && states[j][id].raws == states[i][id].raws
    ensures states[j][id].outputs + Due(states[j][id].phase) == states[i][id].outputs + Due(states[i][id].phase)
    decreases j
  {
    hide Next, Due;
    if i < j {
      var h, h' := states[j - 1], states[j];
      assert Step(h, h');
      KilledIsSilent(states, i, j - 1, id);
      if k: Id, a: Action :| k in h && Enabled(h[k], a) && h' == h[k := Next(h[k], a)] {
        if k == id { KilledStep(h[k], a); }
      }
    }
  }

  /** A terminal that reaches its reaping step without a kill has emitted its whole stream, decoded. */
  lemma WholeStreamEmitted(states: seq<Hub>, j: nat, id: Id)
    requires Run(states) && states[0] == map[] && j < |states| && id in states[j]
    requires states[j][id].entry.Some? && states[j][id].phase.Reaping?
    ensures Text(states[j][id].outputs) == Lossy(Flatten(states[j][id].raws))
  {
    hide Commit, Lossy, PushAll, EventsOf, Text;
    RunKeepsGood(states, j, j, id);
    var raws := states[j][id].raws;
    ChunkInvariance(raws);
    EventTextIsDecoderText(raws);
    FlushText(EventsOf(raws), raws, 0);
  }

  /** The flush event adds what the decoder held back, and passes every filter of an earlier watermark. */
  lemma FlushText(events: seq<Chunk>, raws: seq<Bytes>, w: nat)
    requires w <= |raws|
    ensures Text(events + FlushOf(raws)) == Text(events) + Lossy(PushAll(raws).pending)
    ensures |raws| < U64_MAX ==>
              Text(Above(events + FlushOf(raws), w)) == Text(Above(events, w)) + Lossy(PushAll(raws).pending)
  {
    hide Commit, Lossy, PushAll, Text, Above;
    EmptyDecodesToNothing();
    var held := PushAll(raws).pending;
    if held == [] {
      assert events + [] == events;
      assert Text(events) + [] == Text(events) && Text(Above(events, w)) + [] == Text(Above(events, w));
    } else {
      var e := Chunk(Lossy(held), Number(|raws| + 1));
      AboveAppend(events, e, w);
      AboveAppend(Above(events, w), e, w);
    }
  }

  /** Every event of a terminal that flushed has a higher number than those before it, the flush event included. */
  lemma FlushIsNumberedLast(states: seq<Hub>, j: nat, id: Id, k: nat, l: nat)
    requires Run(states) && states[0] == map[] && j < |states| && id in states[j]
    requires states[j][id].entry.Some? && states[j][id].phase.Reaping? && |states[j][id].raws| < U64_MAX
    requires k < l < |states[j][id].outputs|
    ensures states[j][id].outputs[k].number < states[j][id].outputs[l].number
  {
    hide Commit, Lossy, PushAll, EventsOf;
    RunKeepsGood(states, j, j, id);
    NumbersIncrease(states[j][id].raws);
  }

  /**
   * A client that replays a backlog and follows the terminal to its end sees the whole stream, the
   * flush included, if and only if the watermark cut no character.
   */
  lemma FollowedToTheEnd(states: seq<Hub>, i: nat, j: nat, id: Id)
    requires Run(states) && states[0] == map[] && i <= j < |states| && id in states[i] && id in states[j]
    requires states[i][id].entry.Some? && BeforeFlush(states[i][id].phase)
    requires states[j][id].entry.Some? && states[j][id].phase.Reaping? && |states[j][id].raws| < U64_MAX
    requires |Flatten(states[i][id].raws)| <= PTY_BACKLOG_CAP
    ensures var then_, now := states[i][id], states[j][id];
            Lossy(then_.entry.value.backlog) + Text(Above(now.outputs, then_.entry.value.lastSeq)) == Lossy(Flatten(now.raws))
            <==> PushAll(then_.raws).pending == []
  {
    hide Commit, Lossy, Text, Above, PushAll, EventsOf, LastBytes, FlushOf;
    RunKeepsGood(states, i, i, id);
    RunKeepsGood(states, i, j, id);
    var raws, w := states[j][id].raws, |states[i][id].raws|;
    assert raws[..w] == states[i][id].raws;
    FlushText(EventsOf(raws), raws, w);
    ReplaySpellsStream(raws, w);
    var replay := Lossy(states[i][id].entry.value.backlog);
    assert replay + (Text(Above(EventsOf(raws), w)) + Lossy(PushAll(raws).pending))
        == replay + Text(Above(EventsOf(raws), w)) + Lossy(PushAll(raws).pending);
  }
}
