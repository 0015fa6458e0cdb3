// The subscription table of the server (src/server/mod.rs) and what publishing to subscribers means.
module PubSub {
  import opened Common
  import opened Schema

  /** The sending end of a subscriber's channel. */
  type Sender = nat

  type Table = map<u32, seq<Sender>>

  datatype Sent = Sent(to: Sender, result: TaskResult)

  function Entry(table: Table, t: u32): seq<Sender> {
    if t in table then table[t] else []
  }

  function Registered(table: Table, t: u32, tx: Sender): (r: Table)
    ensures Entry(r, t) == Entry(table, t) + [tx]
    ensures forall u: u32 :: u != t ==> Entry(r, u) == Entry(table, u)
  {
    table[t := Entry(table, t) + [tx]]
  }

  function Disconnected(table: Table, t: u32): (r: Table)
    ensures Entry(r, t) == [] && t !in r
    ensures forall u: u32 :: u != t ==> Entry(r, u) == Entry(table, u)
  {
    table - {t}
  }

  /** One send to each of some subscribers, in order. */
  function Sends(txs: seq<Sender>, req: TaskResult): (s: seq<Sent>)
    ensures |s| == |txs|
    ensures forall k :: 0 <= k < |txs| ==> s[k] == Sent(txs[k], req)
  {
    if txs == [] then [] else Sends(txs[..|txs| - 1], req) + [Sent(txs[|txs| - 1], req)]
  }

  /** The handlers, each run without interference. */
  class VerfploeterService {
    var subscriptionList: Table
    var log: seq<Sent>

    constructor ()
      ensures subscriptionList == map[] && log == []
    {
      subscriptionList, log := map[], [];
    }

    method RegisterSubscriber(taskId: u32, tx: Sender)
      modifies this`subscriptionList
      ensures subscriptionList == Registered(old(subscriptionList), taskId, tx)
      ensures subscriptionList == old(subscriptionList)[
                taskId := (if taskId in old(subscriptionList) then old(subscriptionList)[taskId] else []) + [tx]]
    {
      if taskId in subscriptionList {
        subscriptionList := subscriptionList[taskId := subscriptionList[taskId] + [tx]];
      } else {
        subscriptionList := subscriptionList[taskId := [tx]];
        assert [] + [tx] == [tx];
      }
    }

    method GetSubscribers(taskId: u32) returns (r: Option<seq<Sender>>)
      ensures r.Some? <==> taskId in subscriptionList
      ensures r.Some? ==> r.value == Entry(subscriptionList, taskId) == subscriptionList[taskId]
    {
      if taskId in subscriptionList {
        return Some(subscriptionList[taskId]);
      }
      r := None;
    }

    method DisconnectSubscribers(taskId: u32)
      modifies this`subscriptionList
      ensures subscriptionList == Disconnected(old(subscriptionList), taskId) == old(subscriptionList) - {taskId}
    {
      if taskId in subscriptionList {
        subscriptionList := subscriptionList - {taskId};
      }
    }

    /** Sends a result once to every subscriber of its task, and to nobody else. */
    method SendResult(req: TaskResult)
      modifies this`log
      ensures log == old(log) + Sends(Entry(subscriptionList, req.taskId), req)
    {
      var subscribers := GetSubscribers(req.taskId);
      if subscribers.Some? {
        var txs := subscribers.value;
        for k := 0 to |txs|
          invariant log == old(log) + Sends(txs[..k], req)
        {
          assert txs[..k + 1][..k] == txs[..k];
          log := log + [Sent(txs[k], req)];
        }
        assert txs[..|txs|] == txs;
      }
    }
  }

  // ----- publishing in one step -----

  /** What an ideal server keeps of a subscriber: its task, whether the task goes on, and which handlers
      published to it, with multiplicity. */
  datatype Reader = Reader(topic: u32, active: bool, inbox: multiset<nat>)

  datatype Op = SubscribeOp(topic: u32) | PublishOp(handler: nat, topic: u32) | FinishOp(topic: u32)

  function Publish(rs: seq<Reader>, handler: nat, t: u32): (n: seq<Reader>)
    ensures |n| == |rs|
    ensures forall i :: 0 <= i < |rs| ==>
              n[i] == if rs[i].topic == t && rs[i].active then rs[i].(inbox := rs[i].inbox + multiset{handler}) else rs[i]
  {
    if rs == [] then []
    else
      var r := rs[|rs| - 1];
      Publish(rs[..|rs| - 1], handler, t)
      + [if r.topic == t && r.active then r.(inbox := r.inbox + multiset{handler}) else r]
  }

  function Finish(rs: seq<Reader>, t: u32): (n: seq<Reader>)
    ensures |n| == |rs|
    ensures forall i :: 0 <= i < |rs| ==> n[i] == if rs[i].topic == t then rs[i].(active := false) else rs[i]
  {
    if rs == [] then []
    else
      var r := rs[|rs| - 1];
      Finish(rs[..|rs| - 1], t) + [if r.topic == t then r.(active := false) else r]
  }

  function Apply(rs: seq<Reader>, o: Op): seq<Reader> {
    match o
    case SubscribeOp(t) => rs + [Reader(t, true, multiset{})]
    case PublishOp(h, t) => Publish(rs, h, t)
    case FinishOp(t) => Finish(rs, t)
  }

  /** The ideal server after some operations, each in one step. */
  function Readers(ops: seq<Op>): seq<Reader> {
    if ops == [] then [] else Apply(Readers(ops[..|ops| - 1]), ops[|ops| - 1])
  }

  // ----- what an inbox holds, in terms of the order of operations -----

  function Subscriptions(ops: seq<Op>): nat {
    if ops == [] then 0
    else Subscriptions(ops[..|ops| - 1]) + (if ops[|ops| - 1].SubscribeOp? then 1 else 0)
  }

  /** Where reader i registers. */
  function RegisteredAt(ops: seq<Op>, i: nat): (q: nat)
    requires i < Subscriptions(ops)
    ensures q < |ops| && ops[q].SubscribeOp? && Subscriptions(ops[..q]) == i
  {
    var front := ops[..|ops| - 1];
    if i < Subscriptions(front) then
      var q := RegisteredAt(front, i);
      assert front[..q] == ops[..q];
      q
    else |ops| - 1
  }

  /** Nothing after q and before p finishes the task. */
  ghost predicate Unfinished(ops: seq<Op>, t: u32, q: nat, p: nat) {
    forall r :: q < r < p && r < |ops| ==> ops[r] != FinishOp(t)
  }

  /** Handler h publishes at p, after reader i registered for that task and before the task finished. */
  ghost predicate Window(ops: seq<Op>, i: nat, h: nat, p: nat)
    requires i < Subscriptions(ops)
  {
    var q := RegisteredAt(ops, i);
    q < p < |ops| && ops[p] == PublishOp(h, ops[q].topic) && Unfinished(ops, ops[q].topic, q, p)
  }

  /** Reader i is owed what handler h publishes. */
  ghost predicate Owed(ops: seq<Op>, i: nat, h: nat)
    requires i < Subscriptions(ops)
  {
    exists p: nat :: Window(ops, i, h, p)
  }

  lemma {:induction false} ReaderCount(ops: seq<Op>)
    ensures |Readers(ops)| == Subscriptions(ops)
    decreases |ops|
  {
    if ops != [] { ReaderCount(ops[..|ops| - 1]); }
  }

  lemma {:induction false} EarlierWindow(ops: seq<Op>, i: nat, h: nat, p: nat)
    requires ops != [] && i < Subscriptions(ops[..|ops| - 1]) && p < |ops| - 1
    ensures Window(ops, i, h, p) <==> Window(ops[..|ops| - 1], i, h, p)
  {
    var front := ops[..|ops| - 1];
    var q := RegisteredAt(front, i);
    assert forall r :: 0 <= r < |front| ==> front[r] == ops[r];
  }

  /** What an ideal server knows of a reader, from the operations alone. */
  ghost predicate Explained(ops: seq<Op>, i: nat, h: nat)
    requires i < Subscriptions(ops) && i < |Readers(ops)|
  {
    var q := RegisteredAt(ops, i);
    var r := Readers(ops)[i];
    && r.topic == ops[q].topic
    && (r.active <==> Unfinished(ops, r.topic, q, |ops|))
    && (r.inbox[h] > 0 <==> Owed(ops, i, h))
  }

  lemma {:induction false} ExplainedFirst(ops: seq<Op>, i: nat, h: nat)
    requires ops != [] && i == Subscriptions(ops[..|ops| - 1]) < Subscriptions(ops) && |Readers(ops)| == Subscriptions(ops)
    ensures Explained(ops, i, h)
  {
    ReaderCount(ops[..|ops| - 1]);
  }

  lemma {:induction false} UnfinishedSnoc(ops: seq<Op>, t: u32, q: nat)
    requires q < |ops| - 1
    ensures Unfinished(ops, t, q, |ops|) <==> Unfinished(ops[..|ops| - 1], t, q, |ops| - 1) && ops[|ops| - 1] != FinishOp(t)
    ensures Unfinished(ops, t, q, |ops| - 1) <==> Unfinished(ops[..|ops| - 1], t, q, |ops| - 1)
  {
    var front := ops[..|ops| - 1];
    assert forall r :: 0 <= r < |front| ==> front[r] == ops[r];
  }

  lemma {:induction false} SomeWindow(ops: seq<Op>, i: nat, h: nat)
    requires ops != [] && i < Subscriptions(ops[..|ops| - 1])
    ensures Owed(ops, i, h) <==> Owed(ops[..|ops| - 1], i, h) || Window(ops, i, h, |ops| - 1)
  {
    var front := ops[..|ops| - 1];
    if Owed(front, i, h) {
      var p: nat :| Window(front, i, h, p);
      EarlierWindow(ops, i, h, p);
    }
    if Owed(ops, i, h) {
      var p: nat :| Window(ops, i, h, p);
      if p < |front| { EarlierWindow(ops, i, h, p); }
    }
  }

  lemma {:induction false} ReaderNext(ops: seq<Op>, i: nat)
    requires ops != [] && i < |Readers(ops[..|ops| - 1])|
    ensures i < |Readers(ops)|
    ensures var r, n, o := Readers(ops[..|ops| - 1])[i], Readers(ops)[i], ops[|ops| - 1];
            && n.topic == r.topic
            && n.active == (r.active && o != FinishOp(r.topic))
            && n.inbox == if o.PublishOp? && o.topic == r.topic && r.active then r.inbox + multiset{o.handler} else r.inbox
  {
  }

  lemma {:induction false} ExplainedNext(ops: seq<Op>, i: nat, h: nat)
    requires ops != [] && |Readers(ops)| == Subscriptions(ops)
    requires var front := ops[..|ops| - 1];
             i < Subscriptions(front) && |Readers(front)| == Subscriptions(front) && Explained(front, i, h)
    ensures Explained(ops, i, h)
  {
    var front, o := ops[..|ops| - 1], ops[|ops| - 1];
    var q := RegisteredAt(front, i);
    assert RegisteredAt(ops, i) == q;
    ReaderNext(ops, i);
    UnfinishedSnoc(ops, ops[q].topic, q);
    SomeWindow(ops, i, h);
    assert Window(ops, i, h, |front|) <==> o == PublishOp(h, ops[q].topic) && Unfinished(ops, ops[q].topic, q, |front|);
  }

  /** A handler's result is in the inbox of a reader exactly when the handler published after the reader's
      registration for that task and before the task's next finish. */
  lemma {:induction false} InboxIsWindow(ops: seq<Op>, i: nat, h: nat)
    requires i < Subscriptions(ops)
    ensures i < |Readers(ops)| && Explained(ops, i, h)
    decreases |ops|
  {
    var front := ops[..|ops| - 1];
    ReaderCount(ops);
    ReaderCount(front);
    if i < Subscriptions(front) {
      InboxIsWindow(front, i, h);
      ExplainedNext(ops, i, h);
    } else {
      ExplainedFirst(ops, i, h);
    }
  }
}
