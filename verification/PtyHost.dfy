/**
 * One terminal session: its capped replay buffer and sequence number, the events its reader emits,
 * and what a client that attaches late can put together from the two.
 */
module PtyHost {

  import opened Utf8

  const PTY_BACKLOG_CAP: nat := 256 * 1024

  const READ_BUFFER: nat := 4096

  const U64_MAX: nat := 0xFFFF_FFFF_FFFF_FFFF

  // ------------------------------------------------------------ one session

  /** The last `cap` bytes, or all of them. */
  function LastBytes(s: Bytes, cap: nat): Bytes {
    if |s| <= cap then s else s[|s| - cap..]
  }

  /** `u64::saturating_add(1)`. */
  function Bump(n: nat): (r: nat)
    ensures n <= U64_MAX ==> (r > n <==> n < U64_MAX)
  {
    if n >= U64_MAX then U64_MAX else n + 1
  }

  datatype SessionState = SessionState(backlog: Bytes, lastSeq: nat, killed: bool)

  /** The replay buffer after one append. */
  function Appended(backlog: Bytes, chunk: Bytes, cap: nat): Bytes {
    if chunk == [] then backlog else LastBytes(backlog + chunk, cap)
  }

  /** The session after the critical section of one read. */
  function Recorded(s: SessionState, raw: Bytes): SessionState {
    s.(backlog := Appended(s.backlog, raw, PTY_BACKLOG_CAP), lastSeq := Bump(s.lastSeq))
  }

  /** Sequence number after `n` recordings. */
  function Number(n: nat): nat {
    if n <= U64_MAX then n else U64_MAX
  }

  /** `stored` is the history of what was recorded. */
  class PtySession {
    var backlog: Bytes
    var lastSeq: nat
    var killed: bool
    ghost var stored: seq<Bytes>

    /** The buffer holds the last bytes of all recordings, and the number counts them. */
    ghost predicate Valid()
      reads this
    {
      backlog == LastBytes(Flatten(stored), PTY_BACKLOG_CAP) && lastSeq == Number(|stored|)
    }

    ghost function View(): SessionState
      reads this
    {
      SessionState(backlog, lastSeq, killed)
    }

    constructor ()
      ensures View() == SessionState([], 0, false)
      ensures Valid() && stored == []
    {
      backlog, lastSeq, killed, stored := [], 0, false, [];
    }

    /** `append_backlog_capped`. */
    method AppendCapped(chunk: Bytes, cap: nat)
      modifies this`backlog
      ensures chunk == [] ==> backlog == old(backlog)
      ensures chunk != [] ==> backlog == LastBytes(old(backlog) + chunk, cap)
    {
      if chunk == [] {
        return;
      }
      if |chunk| >= cap {
        ghost var whole := backlog + chunk;
        backlog := [];
        backlog := backlog + chunk[|chunk| - cap..];
        assert LastBytes(whole, cap) == chunk[|chunk| - cap..];
        return;
      }
      backlog := backlog + chunk;
      if |backlog| > cap {
        var dropN := |backlog| - cap;
        backlog := backlog[dropN..];
      }
    }

    /** What the reader does with a read while it holds the lock. */
    method Record(raw: Bytes) returns (number: nat)
      requires Valid()
      modifies this
      ensures Valid() && stored == old(stored) + [raw]
      ensures View() == Recorded(old(View()), raw)
      ensures number == lastSeq
    {
      LastOfLast(Flatten(stored), raw, PTY_BACKLOG_CAP);
      FlattenOneMore(stored, raw);
      AppendCapped(raw, PTY_BACKLOG_CAP);
      lastSeq := Bump(lastSeq);
      number := lastSeq;
      stored := stored + [raw];
    }

    /**
     * `backlog`: the decoding of the last bytes of all recordings so far, and how many there are.
     * While every recording was a read, with nothing dropped and nothing pending, it is the text a
     * client would have seen live; a recorded flush is not a read.
     */
    method Backlog() returns (data: Bytes, upToSeq: nat)
      requires Valid()
      ensures data == Lossy(LastBytes(Flatten(stored), PTY_BACKLOG_CAP)) && upToSeq == Number(|stored|)
      ensures |Flatten(stored)| <= PTY_BACKLOG_CAP && PushAll(stored).pending == [] ==> data == Text(EventsOf(stored))
    {
      hide Lossy;
      data, upToSeq := Lossy(backlog), lastSeq;
      ChunkInvariance(stored);
      EventTextIsDecoderText(stored);
      assert PushAll(stored).text + [] == PushAll(stored).text;
      EmptyDecodesToNothing();
    }
  }

  lemma EmptyDecodesToNothing()
    ensures Lossy([]) == []
  {
  }

  lemma FlattenOneMore(chunks: seq<Bytes>, chunk: Bytes)
    ensures Flatten(chunks + [chunk]) == Flatten(chunks) + chunk
  {
    assert (chunks + [chunk])[..|chunks|] == chunks;
  }

  /** Dropping from the front twice is dropping once. */
  lemma LastOfLast(a: Bytes, b: Bytes, cap: nat)
    ensures LastBytes(LastBytes(a, cap) + b, cap) == LastBytes(a + b, cap)
  {
  }

  // ----------------------------------------------------- events of one reader

  /** A `pty://output` event of one session. */
  datatype Chunk = Chunk(data: Bytes, number: nat)

  /** The events owed for a run of reads: a read that completes no character emits nothing. */
  function EventsOf(inputs: seq<Bytes>): seq<Chunk> {
    if inputs == [] then []
    else
      var init := inputs[..|inputs| - 1];
      var text := Commit(PushAll(init).pending + inputs[|inputs| - 1]).text;
      EventsOf(init) + (if text == [] then [] else [Chunk(text, Number(|inputs|))])
  }

  /** What a client keeps after replaying a backlog with watermark `w`. */
  function Above(events: seq<Chunk>, w: nat): seq<Chunk> {
    if events == [] then []
    else
      var last := events[|events| - 1];
      Above(events[..|events| - 1], w) + (if last.number > w then [last] else [])
  }

  function Text(events: seq<Chunk>): Bytes {
    if events == [] then [] else Text(events[..|events| - 1]) + events[|events| - 1].data
  }

  lemma AboveAppend(events: seq<Chunk>, e: Chunk, w: nat)
    ensures Above(events + [e], w) == Above(events, w) + (if e.number > w then [e] else [])
    ensures Text(events + [e]) == Text(events) + e.data
  {
  }

  lemma {:induction false} NothingAbove(events: seq<Chunk>, w: nat)
    requires forall i :: 0 <= i < |events| ==> events[i].number <= w
    ensures Above(events, w) == [] && Text(Above(events, w)) == []
  {
    if events != [] {
      NothingAbove(events[..|events| - 1], w);
    }
  }

  /** Event numbers strictly increase and never pass the number of reads. */
  lemma {:induction false} NumbersIncrease(inputs: seq<Bytes>)
    requires |inputs| <= U64_MAX
    ensures forall i :: 0 <= i < |EventsOf(inputs)| ==> 0 < EventsOf(inputs)[i].number <= |inputs|
    ensures forall i, j :: 0 <= i < j < |EventsOf(inputs)| ==> EventsOf(inputs)[i].number < EventsOf(inputs)[j].number
    decreases |inputs|
  {
    if inputs != [] {
      NumbersIncrease(inputs[..|inputs| - 1]);
    }
  }

  lemma {:induction false} EventTextIsDecoderText(inputs: seq<Bytes>)
    ensures Text(EventsOf(inputs)) == PushAll(inputs).text
    decreases |inputs|
  {
    if inputs != [] {
      var init := inputs[..|inputs| - 1];
      EventTextIsDecoderText(init);
      var text := Commit(PushAll(init).pending + inputs[|inputs| - 1]).text;
      AboveAppend(EventsOf(init), Chunk(text, Number(|inputs|)), 0);
      assert PushAll(init).text + [] == PushAll(init).text;
      assert EventsOf(init) + [] == EventsOf(init);
    }
  }

  /** One more read adds its committed text to the stream and, unless empty, one event. */
  lemma LastRead(inputs: seq<Bytes>, w: nat)
    requires inputs != [] && w < |inputs| <= U64_MAX
    ensures var init := inputs[..|inputs| - 1];
            var text := Commit(PushAll(init).pending + inputs[|inputs| - 1]).text;
            && PushAll(inputs).text == PushAll(init).text + text
            && Text(Above(EventsOf(inputs), w)) == Text(Above(EventsOf(init), w)) + text
  {
    hide Commit, Text, Above, PushAll;
    var init := inputs[..|inputs| - 1];
    var text := Commit(PushAll(init).pending + inputs[|inputs| - 1]).text;
    var kept, e := Above(EventsOf(init), w), Chunk(text, |inputs|);
    assert PushAll(inputs).text == PushAll(init).text + text by { LastText(inputs); }
    if text == [] {
      assert EventsOf(inputs) == EventsOf(init);
      assert Text(kept) + text == Text(kept);
    } else {
      assert EventsOf(inputs) == EventsOf(init) + [e];
      AboveAppend(EventsOf(init), e, w);
      AboveAppend(kept, e, w);
    }
  }

  lemma LastText(inputs: seq<Bytes>)
    requires inputs != []
    ensures var init := inputs[..|inputs| - 1];
            PushAll(inputs).text == PushAll(init).text + Commit(PushAll(init).pending + inputs[|inputs| - 1]).text
  {
  }

  /** The events above a watermark carry exactly the text of the later reads. */
  lemma {:induction false} AboveWatermark(inputs: seq<Bytes>, w: nat)
    requires w <= |inputs| <= U64_MAX
    ensures PushAll(inputs).text == PushAll(inputs[..w]).text + Text(Above(EventsOf(inputs), w))
    decreases |inputs|
  {
    hide Commit, Text, Above, PushAll, EventsOf;
    if w == |inputs| {
      NumbersIncrease(inputs);
      NothingAbove(EventsOf(inputs), w);
      assert inputs[..w] == inputs;
      assert PushAll(inputs).text + [] == PushAll(inputs).text;
    } else {
      var init := inputs[..|inputs| - 1];
      AboveWatermark(init, w);
      assert init[..w] == inputs[..w];
      LastRead(inputs, w);
    }
  }

  /** Once the counter has saturated, the client's filter drops every later event. */
  lemma {:induction false} SaturatedWatermark(inputs: seq<Bytes>, w: nat)
    requires w >= U64_MAX
    ensures Above(EventsOf(inputs), Number(w)) == []
    decreases |inputs|
  {
    hide Commit;
    if inputs != [] {
      var init := inputs[..|inputs| - 1];
      SaturatedWatermark(init, w);
      var text := Commit(PushAll(init).pending + inputs[|inputs| - 1]).text;
      AboveAppend(EventsOf(init), Chunk(text, Number(|inputs|)), Number(w));
      assert EventsOf(init) + [] == EventsOf(init);
    }
  }

  /**
   * Replay watermark: nothing dropped and nothing saturated, the replay text up to watermark `w`,
   * the events above `w` and the final flush spell the whole stream if and only if the decoder
   * held nothing back at `w`. A character cut by the watermark shows up once too often.
   */
  lemma ReplaySpellsStream(inputs: seq<Bytes>, w: nat)
    requires w <= |inputs| <= U64_MAX
    requires |Flatten(inputs[..w])| <= PTY_BACKLOG_CAP
    ensures var replay := Lossy(LastBytes(Flatten(inputs[..w]), PTY_BACKLOG_CAP));
            var live := Text(Above(EventsOf(inputs), w));
            var flush := Lossy(PushAll(inputs).pending);
            replay + live + flush == Lossy(Flatten(inputs)) <==> PushAll(inputs[..w]).pending == []
  {
    var before := PushAll(inputs[..w]);
    var live := Text(Above(EventsOf(inputs), w));
    var flush := Lossy(PushAll(inputs).pending);
    var cut := Lossy(before.pending);
    ChunkInvariance(inputs[..w]);
    ChunkInvariance(inputs);
    AboveWatermark(inputs, w);
    assert Lossy(Flatten(inputs)) == before.text + live + flush;
    if before.pending == [] {
      assert before.text + cut == before.text;
    } else {
      PartialDecodesToReplacement(before.pending);
      assert |before.text + cut + live + flush| != |before.text + live + flush|;
    }
  }

  /**
   * The end-of-stream flush stores its replacement beside the raw tail it stands for: whatever the
   * buffer still holds decodes as before, and then one replacement too many follows.
   */
  lemma FlushDoublesTail(inputs: seq<Bytes>)
    requires PushAll(inputs).pending != []
    ensures var backlog := LastBytes(Flatten(inputs), PTY_BACKLOG_CAP);
            var flushed := Appended(backlog, Lossy(PushAll(inputs).pending), PTY_BACKLOG_CAP);
            Lossy(flushed) == Lossy(LastBytes(Flatten(inputs), PTY_BACKLOG_CAP - |REPLACEMENT|)) + REPLACEMENT
  {
    hide Lossy, Commit, IsPartial, Flatten;
    var all, kept := Flatten(inputs), LastBytes(Flatten(inputs), PTY_BACKLOG_CAP - |REPLACEMENT|);
    PartialDecodesToReplacement(PushAll(inputs).pending);
    LastOfLast(all, REPLACEMENT, PTY_BACKLOG_CAP);
    assert LastBytes(all + REPLACEMENT, PTY_BACKLOG_CAP) == kept + REPLACEMENT;
    ReplacementFollows(kept);
  }

  /** A replacement after any bytes decodes to itself, whatever those bytes end in. */
  lemma ReplacementFollows(s: Bytes)
    ensures Lossy(s + REPLACEMENT) == Lossy(s) + REPLACEMENT
  {
    hide Lossy, Commit, IsPartial;
    var text, held := Commit(s).text, Commit(s).pending;
    CommitThenLossy(s, REPLACEMENT);
    CommitThenLossy(s, []);
    assert s + [] == s && held + [] == held;
    EmptyDecodesToNothing();
    assert Lossy(REPLACEMENT) == REPLACEMENT by { ReplacementIsItself(); }
    if held == [] {
      assert [] + REPLACEMENT == REPLACEMENT && text + [] == text;
    } else {
      PartialDecodesToReplacement(held);
      TailThenReplacement(held);
      assert text + (REPLACEMENT + REPLACEMENT) == text + REPLACEMENT + REPLACEMENT;
    }
  }

  lemma ReplacementIsItself()
    ensures Lossy(REPLACEMENT) == REPLACEMENT
  {
    LeadingChar(REPLACEMENT, []);
    assert REPLACEMENT + [] == REPLACEMENT;
    assert WellFormed(REPLACEMENT);
    Utf8PassesThrough(REPLACEMENT);
  }

  lemma TailThenReplacement(held: Bytes)
    requires IsPartial(held)
    ensures Lossy(held + REPLACEMENT) == REPLACEMENT + REPLACEMENT
  {
    var s := held + REPLACEMENT;
    assert forall i :: 0 <= i < |held| ==> s[i] == held[i];
    assert s[|held|] == 0xEF;
    assert s[..|held|] == held && s[|held|..] == REPLACEMENT;
    assert CharLen(s) == 0;
    assert MaximalSubpart(s) == |held|;
    LeadingChar(REPLACEMENT, []);
    assert REPLACEMENT + [] == REPLACEMENT;
    assert WellFormed(REPLACEMENT);
    Utf8PassesThrough(REPLACEMENT);
  }
}
