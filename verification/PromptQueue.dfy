/**
 * The bridge-owned prompt queue of one session: taking the next batch from the head and handing a
 * batch back. A batch is the longest run of plain prompts at the head, or the head alone.
 */
module PromptQueue {

  import opened Whitespace
  import opened Wrappers

  type EntryId = nat

  datatype Kind = Prompt | Command

  datatype Entry = Entry(id: EntryId, version: nat, text: string, kind: Kind, priority: bool)

  datatype Batch = Batch(entries: seq<Entry>, text: string)

  predicate CanMerge(e: Entry) {
    e.kind.Prompt? && !e.priority && e.text != ""
  }

  /** Length of the run of mergeable entries at the head. */
  function MergeableRun(q: seq<Entry>): (n: nat)
    ensures n <= |q|
    ensures forall i :: 0 <= i < n ==> CanMerge(q[i])
    ensures n < |q| ==> !CanMerge(q[n])
  {
    if q == [] || !CanMerge(q[0]) then 0 else 1 + MergeableRun(q[1..])
  }

  function BatchLength(q: seq<Entry>): nat {
    if MergeableRun(q) == 0 then 1 else MergeableRun(q)
  }

  function Join(entries: seq<Entry>): string {
    if entries == [] then ""
    else if entries[0].text == "" then Join(entries[1..])
    else if Join(entries[1..]) == "" then entries[0].text
    else entries[0].text + "\n\n" + Join(entries[1..])
  }

  function Bumped(entries: seq<Entry>): (r: seq<Entry>)
    ensures |r| == |entries|
    ensures forall i :: 0 <= i < |r| ==> r[i] == entries[i].(version := entries[i].version + 1)
  {
    if entries == [] then [] else [entries[0].(version := entries[0].version + 1)] + Bumped(entries[1..])
  }

  /** `combine_prefix_len`. */
  method CombinePrefixLen(items: seq<Entry>) returns (n: nat)
    ensures n == if items == [] then 0 else BatchLength(items)
  {
    if items == [] { return 0; }
    if !CanMerge(items[0]) { return 1; }
    n := 1;
    var i := 1;
    while i < |items| && CanMerge(items[i])
      invariant 1 <= i <= |items| && n == i
      invariant MergeableRun(items) == i + MergeableRun(items[i..])
    {
      assert items[i..][1..] == items[i + 1..];
      n := n + 1;
      i := i + 1;
    }
  }

  /** `join_texts`. */
  method JoinTexts(entries: seq<Entry>) returns (text: string)
    ensures text == Join(entries)
  {
    text := "";
    var i := |entries|;
    while i > 0
      invariant 0 <= i <= |entries|
      invariant text == Join(entries[i..])
    {
      i := i - 1;
      assert entries[i..][1..] == entries[i + 1..];
      if entries[i].text != "" {
        text := if text == "" then entries[i].text else entries[i].text + "\n\n" + text;
      }
    }
    assert entries[0..] == entries;
  }

  class SessionPromptQueue {
    var queued: seq<Entry>

    constructor ()
      ensures queued == []
    {
      queued := [];
    }

    /** Removes the batch at the head, in order, and reports what is left. */
    method TakeNext() returns (batch: Option<Batch>, left: seq<Entry>)
      modifies this
      ensures left == queued
      ensures batch.None? <==> old(queued) == []
      ensures batch.None? ==> queued == []
      ensures batch.Some? ==> batch.value.entries + queued == old(queued)
      ensures batch.Some? ==> |batch.value.entries| == BatchLength(old(queued))
      ensures batch.Some? ==> batch.value.text == Join(batch.value.entries)
    {
      if queued == [] { return None, []; }
      hide MergeableRun, Join;
      var count := CombinePrefixLen(queued);
      var drained: seq<Entry> := [];
      var i := 0;
      assert count <= |queued|;
      while i < count
        invariant 0 <= i <= count <= |old(queued)|
        invariant drained == old(queued)[..i] && queued == old(queued)[i..]
      {
        drained := drained + [queued[0]];
        queued := queued[1..];
        i := i + 1;
      }
      var text := JoinTexts(drained);
      batch := Some(Batch(drained, text));
      left := queued;
    }

    /** Pushes a batch back at the head in its original order, raising each version. */
    method RestoreBatch(entries: seq<Entry>)
      modifies this
      ensures queued == Bumped(entries) + old(queued)
    {
      var i := |entries|;
      while i > 0
        invariant 0 <= i <= |entries|
        invariant queued == Bumped(entries[i..]) + old(queued)
      {
        i := i - 1;
        assert entries[i..][1..] == entries[i + 1..];
        queued := [entries[i].(version := entries[i].version + 1)] + queued;
      }
      assert entries[0..] == entries;
    }
  }

  /** The queue after taking a batch, and the batch. */
  function Taken(q: seq<Entry>): seq<Entry>
    requires q != []
  {
    q[..BatchLength(q)]
  }

  function Left(q: seq<Entry>): seq<Entry>
    requires q != []
  {
    q[BatchLength(q)..]
  }

  /** Taking and handing back is the identity on ids, texts and order; only the batch's versions move. */
  lemma RestoreUndoesTake(q: seq<Entry>)
    requires q != []
    ensures var r := Bumped(Taken(q)) + Left(q);
            && |r| == |q|
            && forall i :: 0 <= i < |q| ==>
                 r[i] == if i < BatchLength(q) then q[i].(version := q[i].version + 1) else q[i]
  {
  }

  predicate Plain(e: Entry) {
    e.kind == Prompt && !e.priority && |e.text| > 0
  }

  /** A batch of several is all plain prompts with text, and as long as it can be; anything else goes alone. */
  lemma BatchesArePlain(q: seq<Entry>)
    requires q != []
    ensures var n := |Taken(q)|;
            && 1 <= n <= |q|
            && (if Plain(q[0]) then forall i :: 0 <= i < n ==> Plain(q[i]) else n == 1)
            && (Plain(q[0]) && n < |q| ==> !Plain(q[n]))
  {
  }

  /** Joined text is blank for the desktop exactly when every text in the batch is. */
  lemma {:induction false} JoinIsBlankIffAllAre(entries: seq<Entry>)
    ensures DesktopBlank(Join(entries)) <==> forall i :: 0 <= i < |entries| ==> DesktopBlank(entries[i].text)
  {
    if entries != [] {
      JoinIsBlankIffAllAre(entries[1..]);
      var rest := Join(entries[1..]);
      assert forall i :: 1 <= i < |entries| ==> entries[i] == entries[1..][i - 1];
      assert forall i :: 0 <= i < |entries| - 1 ==> entries[1..][i] == entries[i + 1];
      if entries[0].text != "" && rest != "" {
        BlankConcat(entries[0].text + "\n\n", rest);
        BlankConcat(entries[0].text, "\n\n");
      }
    }
  }

  /**
   * The two trims disagree: a prompt of one byte-order mark is not empty for the bridge, which
   * queues it, and is empty for the desktop.
   */
  lemma TrimsDisagree()
    ensures !BridgeBlank("\U{FEFF}") && DesktopBlank("\U{FEFF}")
  {
    assert !BridgeSpace("\U{FEFF}"[0]);
  }
}
