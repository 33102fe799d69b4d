/**
 * The transcript of one lane: merging neighbouring assistant bubbles that repeat each other, and
 * the shape a transcript takes when a turn is over.
 */
module Transcript {

  import opened Whitespace
  import opened Wrappers

  /** A tool's status may be missing. `Plan` and `Failure` stand for the kinds that are never rewritten. */
  datatype Item =
    | User(text: string)
    | Assistant(text: string, streaming: bool)
    | Thought(text: string, streaming: bool)
    | Tool(name: string, status: Option<string>)
    | Plan(text: string)
    | Failure(text: string)

  /** The text of one is a beginning of the text of the other, white space aside. */
  predicate Comparable(a: string, b: string) {
    a <= b || b <= a
  }

  /** One pass of the loop: the item replaces the last bubble, is absorbed by it, or is appended. */
  function Push(out: seq<Item>, item: Item): seq<Item> {
    if !item.Assistant? || out == [] || !out[|out| - 1].Assistant? then out + [item]
    else
      var prev := out[|out| - 1];
      var a, b := Trim(prev.text), Trim(item.text);
      if a == "" then out[|out| - 1 := Assistant(item.text, false)]
      else if b == "" || Comparable(a, b) then
        out[|out| - 1 := Assistant(if |b| >= |a| then item.text else prev.text, false)]
      else out + [item]
  }

  function Collapse(items: seq<Item>): seq<Item> {
    if items == [] then [] else Push(Collapse(items[..|items| - 1]), items[|items| - 1])
  }

  lemma NothingToCollapse()
    ensures Collapse([]) == []
  {
  }

  lemma CollapseOneMore(items: seq<Item>, i: nat)
    requires i < |items|
    ensures Collapse(items[..i + 1]) == Push(Collapse(items[..i]), items[i])
  {
    assert items[..i + 1][..i] == items[..i];
  }

  method CollapseAdjacent(items: seq<Item>) returns (out: seq<Item>)
    ensures out == Collapse(items)
  {
    hide Collapse, Trim;
    out := [];
    NothingToCollapse();
    for i := 0 to |items|
      invariant out == Collapse(items[..i])
    {
      CollapseOneMore(items, i);
      var item := items[i];
      if item.Assistant? && out != [] && out[|out| - 1].Assistant? {
        var prev := out[|out| - 1];
        var a, b := Trim(prev.text), Trim(item.text);
        if a == "" {
          out := out[|out| - 1 := Assistant(item.text, false)];
          continue;
        }
        if b == "" || a == b || a <= b || b <= a {
          var text := if |b| >= |a| then item.text else prev.text;
          out := out[|out| - 1 := Assistant(text, false)];
          continue;
        }
      }
      out := out + [item];
    }
    assert items[..|items|] == items;
  }

  // -------------------------------------------------------------- normal form

  /** Neighbouring assistants both say something, and neither begins the other. */
  predicate Apart(x: Item, y: Item) {
    x.Assistant? && y.Assistant? ==>
      && Trim(x.text) != "" && Trim(y.text) != ""
      && !Comparable(Trim(x.text), Trim(y.text))
  }

  predicate NormalForm(items: seq<Item>) {
    forall i :: 0 <= i < |items| - 1 ==> Apart(items[i], items[i + 1])
  }

  lemma PushKeepsNormalForm(out: seq<Item>, item: Item)
    requires NormalForm(out)
    ensures NormalForm(Push(out, item))
  {
  }

  lemma {:induction false} CollapseIsNormal(items: seq<Item>)
    ensures NormalForm(Collapse(items))
  {
    if items != [] {
      CollapseIsNormal(items[..|items| - 1]);
      PushKeepsNormalForm(Collapse(items[..|items| - 1]), items[|items| - 1]);
    }
  }

  lemma {:induction false} NormalIsFixed(items: seq<Item>)
    requires NormalForm(items)
    ensures Collapse(items) == items
  {
    if items != [] {
      var front := items[..|items| - 1];
      NormalIsFixed(front);
      if |items| >= 2 { assert Apart(items[|items| - 2], items[|items| - 1]); }
      assert items == front + [items[|items| - 1]];
    }
  }

  /** Collapsing twice is collapsing once. */
  lemma CollapseIsIdempotent(items: seq<Item>)
    ensures Collapse(Collapse(items)) == Collapse(items)
  {
    CollapseIsNormal(items);
    NormalIsFixed(Collapse(items));
  }

  // --------------------------------------------------------- nothing is lost

  function Others(items: seq<Item>): seq<Item> {
    if items == [] then []
    else Others(items[..|items| - 1]) + (if items[|items| - 1].Assistant? then [] else [items[|items| - 1]])
  }

  /** Everything that is not an assistant bubble is kept, in order. */
  lemma {:induction false} CollapseKeepsOthers(items: seq<Item>)
    ensures Others(Collapse(items)) == Others(items)
  {
    if items != [] {
      var out, item := Collapse(items[..|items| - 1]), items[|items| - 1];
      CollapseKeepsOthers(items[..|items| - 1]);
      var next := Push(out, item);
      if |next| == |out| {
        assert next[..|next| - 1] == out[..|out| - 1];
      } else {
        assert next[..|next| - 1] == out;
      }
    }
  }

  /** Some bubble of `items` begins with this text. */
  ghost predicate Says(items: seq<Item>, text: string) {
    exists k :: 0 <= k < |items| && items[k].Assistant? && text <= Trim(items[k].text)
  }

  lemma PushKeepsSaying(out: seq<Item>, item: Item, text: string)
    requires Says(out, text)
    ensures Says(Push(out, item), text)
  {
    hide Trim;
    var k :| 0 <= k < |out| && out[k].Assistant? && text <= Trim(out[k].text);
    var next := Push(out, item);
    if k < |out| - 1 || |next| > |out| {
      assert next[k] == out[k];
    } else {
      assert next[k].Assistant? && Trim(out[k].text) <= Trim(next[k].text);
    }
  }

  lemma PushSays(out: seq<Item>, item: Item)
    requires item.Assistant?
    ensures Says(Push(out, item), Trim(item.text))
  {
    hide Trim;
    var next := Push(out, item);
    assert next[|next| - 1].Assistant? && Trim(item.text) <= Trim(next[|next| - 1].text);
  }

  /** No reply is lost: the trimmed text of every bubble begins some bubble that is kept. */
  lemma {:induction false} CollapseKeepsReplies(items: seq<Item>, k: nat)
    requires k < |items| && items[k].Assistant?
    ensures Says(Collapse(items), Trim(items[k].text))
  {
    hide Trim;
    var out, item := Collapse(items[..|items| - 1]), items[|items| - 1];
    if k == |items| - 1 {
      PushSays(out, item);
    } else {
      CollapseKeepsReplies(items[..|items| - 1], k);
      PushKeepsSaying(out, item, Trim(items[k].text));
    }
  }

  /** The bubble's text is one that was there. */
  ghost predicate Quoted(items: seq<Item>, text: string) {
    exists k :: 0 <= k < |items| && items[k].Assistant? && items[k].text == text
  }

  lemma QuotedStays(items: seq<Item>, item: Item, text: string)
    requires Quoted(items, text)
    ensures Quoted(items + [item], text)
  {
    var k :| 0 <= k < |items| && items[k].Assistant? && items[k].text == text;
    assert (items + [item])[k] == items[k];
  }

  /** No reply is made up: every bubble that is kept has, to the letter, the text of a bubble that was there. */
  lemma {:induction false} CollapseQuotes(items: seq<Item>, k: nat)
    requires k < |Collapse(items)| && Collapse(items)[k].Assistant?
    ensures Quoted(items, Collapse(items)[k].text)
  {
    hide Trim, Comparable;
    var front, item := items[..|items| - 1], items[|items| - 1];
    var out := Collapse(front);
    assert items == front + [item];
    if k < |out| && Collapse(items)[k].text == out[k].text && out[k].Assistant? {
      CollapseQuotes(front, k);
      QuotedStays(front, item, out[k].text);
    } else {
      assert items[|front|] == item && Collapse(items)[k].text == item.text;
    }
  }

  // ------------------------------------------------------------ end of a turn

  /** Index of the first item after the last user item. */
  function TurnStart(items: seq<Item>): (n: nat)
    ensures n <= |items|
    ensures n > 0 ==> items[n - 1].User?
    ensures forall i :: n <= i < |items| ==> !items[i].User?
  {
    if items == [] then 0
    else if items[|items| - 1].User? then |items|
    else TurnStart(items[..|items| - 1])
  }

  function Settle(item: Item): Item {
    match item
    case Thought(text, _) => Thought(text, false)
    case Tool(name, status) => Tool(name, if status.Some? then status else Some("completed"))
    case _ => item
  }

  function SettleAll(items: seq<Item>): (r: seq<Item>)
    ensures |r| == |items|
    ensures forall i :: 0 <= i < |r| ==> r[i] == Settle(items[i])
  {
    if items == [] then [] else SettleAll(items[..|items| - 1]) + [Settle(items[|items| - 1])]
  }

  /** The reply bubble: none for a blank reply. `squash` is the host's removal of repeated text. */
  function Reply(reply: Option<string>, squash: string -> string): seq<Item> {
    if reply.None? || Trim(reply.value) == "" || squash(Trim(reply.value)) == "" then []
    else [Assistant(squash(Trim(reply.value)), false)]
  }

  function Finalize(items: seq<Item>, reply: Option<string>, squash: string -> string): seq<Item> {
    var n := TurnStart(items);
    items[..n] + SettleAll(Others(Collapse(items[n..]))) + Reply(reply, squash)
  }

  method FindTurnStart(items: seq<Item>) returns (n: nat)
    ensures n == TurnStart(items)
  {
    var lastUser := -1;
    var i := |items| - 1;
    while i >= 0
      invariant -1 <= i < |items|
      invariant lastUser == -1
      invariant TurnStart(items) == TurnStart(items[..i + 1])
    {
      assert items[..i + 1][..i] == items[..i];
      if items[i].User? {
        lastUser := i;
        break;
      }
      i := i - 1;
    }
    n := lastUser + 1;
  }

  lemma {:induction false} OthersOfOthers(items: seq<Item>)
    requires forall i :: 0 <= i < |items| ==> !items[i].Assistant?
    ensures Others(items) == items
  {
    if items != [] {
      OthersOfOthers(items[..|items| - 1]);
      assert items == items[..|items| - 1] + [items[|items| - 1]];
    }
  }

  lemma {:induction false} OthersAreOthers(items: seq<Item>)
    ensures forall i :: 0 <= i < |Others(items)| ==> !Others(items)[i].Assistant? && Others(items)[i] in items
  {
    if items != [] { OthersAreOthers(items[..|items| - 1]); }
  }

  lemma {:induction false} TurnStartAt(items: seq<Item>, n: nat)
    requires n <= |items| && (n > 0 ==> items[n - 1].User?) && forall i :: n <= i < |items| ==> !items[i].User?
    ensures TurnStart(items) == n
  {
  }

  predicate NoUser(items: seq<Item>) {
    forall i :: 0 <= i < |items| ==> !items[i].User?
  }

  predicate NoAssistant(items: seq<Item>) {
    forall i :: 0 <= i < |items| ==> !items[i].Assistant?
  }

  lemma SettledKinds(tail: seq<Item>)
    requires NoUser(tail)
    ensures NoUser(SettleAll(Others(tail))) && NoAssistant(SettleAll(Others(tail)))
  {
    hide Others, SettleAll;
    OthersAreOthers(tail);
    forall i | 0 <= i < |Others(tail)|
      ensures !Others(tail)[i].User? && !Others(tail)[i].Assistant?
    {
      assert Others(tail)[i] in tail;
    }
  }

  /** What follows the last user item: every other item, settled, then at most one reply. */
  lemma FinalizeShape(items: seq<Item>, reply: Option<string>, squash: string -> string)
    ensures var n := TurnStart(items);
            var middle := SettleAll(Others(items[n..]));
            && Finalize(items, reply, squash) == items[..n] + middle + Reply(reply, squash)
            && TurnStart(Finalize(items, reply, squash)) == n
            && NoUser(middle) && NoAssistant(middle)
            && |Reply(reply, squash)| <= 1
  {
    hide Trim, Others, SettleAll, Collapse;
    var n := TurnStart(items);
    var head, tail := items[..n], items[n..];
    CollapseKeepsOthers(tail);
    assert NoUser(tail);
    SettledKinds(tail);
    HeadDecides(head, SettleAll(Others(tail)) + Reply(reply, squash));
    assert head + (SettleAll(Others(tail)) + Reply(reply, squash)) == head + SettleAll(Others(tail)) + Reply(reply, squash);
  }

  /** After a turn nothing of it streams and every tool has a status; a status that was there stays. */
  lemma SettledItems(items: seq<Item>, i: nat)
    requires i < |items|
    ensures var before, after := items[i], SettleAll(items)[i];
            && (after.Thought? ==> !after.streaming)
            && (after.Tool? ==> after.status.Some?)
            && (before.Tool? ==> after.Tool? && after.name == before.name && (before.status.Some? ==> after.status == before.status))
            && (before.Thought? ==> after.Thought? && after.text == before.text)
            && (!before.Tool? && !before.Thought? ==> after == before)
  {
  }

  /** The reply is shown trimmed and squashed, settled, and never as an empty bubble. */
  lemma ReplyIsNeverEmpty(reply: Option<string>, squash: string -> string)
    ensures var r := Reply(reply, squash);
            && (r == [] <==> reply.None? || Trim(reply.value) == "" || squash(Trim(reply.value)) == "")
            && (r != [] ==> |r| == 1 && r[0].Assistant? && !r[0].streaming
                            && r[0].text == squash(Trim(reply.value)) && r[0].text != "")
  {
  }

  lemma HeadDecides(head: seq<Item>, rest: seq<Item>)
    requires NoUser(rest) && (head != [] ==> head[|head| - 1].User?)
    ensures TurnStart(head + rest) == |head|
  {
    TurnStartAt(head + rest, |head|);
  }

  lemma {:induction false} OthersConcat(a: seq<Item>, b: seq<Item>)
    ensures Others(a + b) == Others(a) + Others(b)
  {
    if b == [] {
      assert a + b == a;
    } else {
      assert (a + b)[..|a + b| - 1] == a + b[..|b| - 1];
      OthersConcat(a, b[..|b| - 1]);
    }
  }

  lemma SettleTwice(items: seq<Item>)
    ensures SettleAll(SettleAll(items)) == SettleAll(items)
  {
  }

  /** Finalizing a turn twice with the same reply is finalizing it once. */
  lemma FinalizeIsIdempotent(items: seq<Item>, reply: Option<string>, squash: string -> string)
    ensures Finalize(Finalize(items, reply, squash), reply, squash) == Finalize(items, reply, squash)
  {
    hide Trim, Collapse, Others, SettleAll, TurnStart, Finalize, Reply;
    var once, n := Finalize(items, reply, squash), TurnStart(items);
    var middle, last := SettleAll(Others(items[n..])), Reply(reply, squash);
    FinalizeShape(items, reply, squash);
    FinalizeShape(once, reply, squash);
    assert once[..n] == items[..n] && once[n..] == middle + last;
    OthersConcat(middle, last);
    OthersOfOthers(middle);
    ReplyIsAssistant(reply, squash);
    SettleTwice(Others(items[n..]));
  }

  lemma ReplyIsAssistant(reply: Option<string>, squash: string -> string)
    ensures Others(Reply(reply, squash)) == []
  {
  }
}
