// Every interleaving of the server's handlers (src/server/mod.rs), each lock section and each channel
// send a step of its own, and why it is publishing in one step.
module PubSubRun {
  import opened Common
  import opened Schema
  import opened PubSub

  /** The receiving end of a subscriber's channel: forwarding, given up by the reader's connection, or at the
      end of the stream. */
  datatype Status = Open | Dropped | Closed

  /** A copy of a result, and the `send_result` handler it came from. */
  datatype Delivery = Delivery(job: nat, result: TaskResult)

  /** `offered` is the history of sends, accepted or not. */
  datatype Sub = Sub(topic: u32, status: Status, offered: seq<Delivery>, queue: seq<Delivery>, streamed: seq<Delivery>)

  /** A `send_result` handler: before its snapshot, or holding cloned senders of which some were served. */
  datatype Phase = Arrived | Sending(served: seq<Sender>, rest: seq<Sender>) | Done

  datatype Job = Job(result: TaskResult, phase: Phase)

  datatype State = State(subs: seq<Sub>, table: Table, jobs: seq<Job>)

  datatype Step =
    | Subscribe(topic: u32)
    | Arrive(result: TaskResult)
    | Snapshot(job: nat)
    | Send(job: nat)
    | Return(job: nat)
    | Forward(sub: nat)
    | DropReceiver(sub: nat)
    | Disconnect(topic: u32)
    | Close(sub: nat)

  const START := State([], map[], [])

  function Rest(s: State, j: nat): seq<Sender> {
    if j < |s.jobs| && s.jobs[j].phase.Sending? then s.jobs[j].phase.rest else []
  }

  function Clones(s: State, j: nat): seq<Sender> {
    if j < |s.jobs| && s.jobs[j].phase.Sending? then s.jobs[j].phase.served + s.jobs[j].phase.rest else []
  }

  /** Some sender of subscriber i still exists. */
  ghost predicate Held(s: State, i: nat) {
    || (exists t: u32 :: i in Entry(s.table, t))
    || (exists j: nat :: i in Clones(s, j))
  }

  ghost predicate Enabled(s: State, e: Step) {
    match e
    case Subscribe(_) => true
    case Arrive(_) => true
    case Snapshot(j) => j < |s.jobs| && s.jobs[j].phase.Arrived?
    case Send(j) => Rest(s, j) != []
    case Return(j) => j < |s.jobs| && s.jobs[j].phase.Sending? && Rest(s, j) == []
    case Forward(i) => i < |s.subs| && s.subs[i].status.Open? && s.subs[i].queue != []
    case DropReceiver(i) => i < |s.subs| && s.subs[i].status.Open?
    case Disconnect(_) => true
    case Close(i) => i < |s.subs| && s.subs[i].status.Open? && s.subs[i].queue == [] && !Held(s, i)
  }

  /** A send to a receiver that is gone fails, and the failure is ignored. */
  function Offer(x: Sub, d: Delivery): Sub {
    x.(offered := x.offered + [d], queue := if x.status.Open? then x.queue + [d] else x.queue)
  }

  function WithPhase(s: State, j: nat, phase: Phase): State
    requires j < |s.jobs|
  {
    s.(jobs := s.jobs[j := s.jobs[j].(phase := phase)])
  }

  function WithSub(s: State, i: nat, x: Sub): State {
    if i < |s.subs| then s.(subs := s.subs[i := x]) else s
  }

  function AfterSend(s: State, j: nat): State
    requires Rest(s, j) != []
  {
    var p, d := s.jobs[j].phase, Delivery(j, s.jobs[j].result);
    var i := p.rest[0];
    var n := WithPhase(s, j, Sending(p.served + [i], p.rest[1..]));
    if i < |s.subs| then WithSub(n, i, Offer(s.subs[i], d)) else n
  }

  function Next(s: State, e: Step): State
    requires Enabled(s, e)
  {
    match e
    case Subscribe(t) => State(s.subs + [Sub(t, Open, [], [], [])], Registered(s.table, t, |s.subs|), s.jobs)
    case Arrive(result) => s.(jobs := s.jobs + [Job(result, Arrived)])
    case Snapshot(j) => WithPhase(s, j, Sending([], Entry(s.table, s.jobs[j].result.taskId)))
    case Send(j) => AfterSend(s, j)
    case Return(j) => WithPhase(s, j, Done)
    case Forward(i) =>
      var x := s.subs[i];
      WithSub(s, i, x.(queue := x.queue[1..], streamed := x.streamed + [x.queue[0]]))
    case DropReceiver(i) => WithSub(s, i, s.subs[i].(status := Dropped, queue := []))
    case Disconnect(t) => s.(table := Disconnected(s.table, t))
    case Close(i) => WithSub(s, i, s.subs[i].(status := Closed))
  }

  ghost function Run(es: seq<Step>): Option<State> {
    if es == [] then Some(START)
    else
      var s := Run(es[..|es| - 1]);
      if s.Some? && Enabled(s.value, es[|es| - 1]) then Some(Next(s.value, es[|es| - 1])) else None
  }

  /** Where a step takes effect: a subscription when it is registered, a publication at its snapshot, a finish
      when the entry is removed. */
  function OpOf(s: State, e: Step): Option<Op> {
    match e
    case Subscribe(t) => Some(SubscribeOp(t))
    case Snapshot(j) => if j < |s.jobs| then Some(PublishOp(j, s.jobs[j].result.taskId)) else None
    case Disconnect(t) => Some(FinishOp(t))
    case _ => None
  }

  ghost function Ops(es: seq<Step>): seq<Op> {
    if es == [] then []
    else
      var front := es[..|es| - 1];
      var o := if Run(front).Some? then OpOf(Run(front).value, es[|es| - 1]) else None;
      if o.Some? then Ops(front) + [o.value] else Ops(front)
  }

  function ApplyOpt(rs: seq<Reader>, o: Option<Op>): seq<Reader> {
    if o.None? then rs else Apply(rs, o.value)
  }

  lemma {:induction false} ReadersSnoc(ops: seq<Op>, o: Op)
    ensures Readers(ops + [o]) == Apply(Readers(ops), o)
  {
    assert (ops + [o])[..|ops|] == ops;
  }

  // ----- no result goes where it does not belong -----

  ghost predicate GenuineSub(x: Sub, jobs: seq<Job>) {
    forall d :: d in x.offered ==> d.job < |jobs| && d.result == jobs[d.job].result && d.result.taskId == x.topic
  }

  ghost predicate Genuine(s: State) {
    forall i :: 0 <= i < |s.subs| ==> GenuineSub(s.subs[i], s.jobs)
  }

  /** Subscriber i is one of task t. */
  ghost predicate For(s: State, i: nat, t: u32) {
    i < |s.subs| && s.subs[i].topic == t
  }

  ghost predicate TableSorted(s: State) {
    forall t: u32, i: nat {:trigger i in Entry(s.table, t)} :: i in Entry(s.table, t) ==> For(s, i, t)
  }

  ghost predicate ClonesSorted(s: State) {
    forall j: nat, i: nat {:trigger i in Clones(s, j)} :: i in Clones(s, j) ==> For(s, i, s.jobs[j].result.taskId)
  }

  lemma {:induction false} TableSortedStep(s: State, e: Step)
    requires TableSorted(s) && Enabled(s, e)
    ensures TableSorted(Next(s, e))
  {
    var n := Next(s, e);
    assert forall t: u32, i: nat | i in Entry(s.table, t) :: For(n, i, t);
  }

  lemma {:induction false} ClonesSortedStep(s: State, e: Step)
    requires TableSorted(s) && ClonesSorted(s) && Enabled(s, e)
    ensures ClonesSorted(Next(s, e))
  {
    var n := Next(s, e);
    forall j: nat, i: nat | i in Clones(n, j) ensures For(n, i, n.jobs[j].result.taskId) {
      if e == Snapshot(j) {
        assert i in Entry(s.table, s.jobs[j].result.taskId);
      } else {
        assert i in Clones(s, j);
      }
    }
  }

  lemma {:induction false} GenuineSend(s: State, j: nat)
    requires Genuine(s) && ClonesSorted(s) && Rest(s, j) != []
    ensures Genuine(AfterSend(s, j))
  {
    var i, n := Rest(s, j)[0], AfterSend(s, j);
    assert i in Clones(s, j);
    forall k | 0 <= k < |n.subs| ensures GenuineSub(n.subs[k], n.jobs) {
      assert GenuineSub(s.subs[k], s.jobs);
    }
  }

  lemma {:induction false} GenuineStep(s: State, e: Step)
    requires Genuine(s) && ClonesSorted(s) && Enabled(s, e)
    ensures Genuine(Next(s, e))
  {
    var n := Next(s, e);
    if e.Send? {
      GenuineSend(s, e.job);
    } else {
      forall k | 0 <= k < |n.subs| ensures GenuineSub(n.subs[k], n.jobs) {
        if k < |s.subs| { assert GenuineSub(s.subs[k], s.jobs); }
      }
    }
  }

  // ----- the relation between the server and an ideal one -----

  ghost predicate SameTopics(s: State, rs: seq<Reader>) {
    |rs| == |s.subs| && forall i :: 0 <= i < |rs| ==> rs[i].topic == s.subs[i].topic
  }

  ghost function Count<T>(xs: seq<T>, x: T): nat {
    multiset(xs)[x]
  }

  lemma {:induction false} CountSnoc<T>(xs: seq<T>, x: T, y: T)
    ensures Count(xs + [x], y) == Count(xs, y) + (if x == y then 1 else 0)
  {
  }

  lemma {:induction false} CountHead<T>(xs: seq<T>, y: T)
    requires xs != []
    ensures Count(xs, y) == (if xs[0] == y then 1 else 0) + Count(xs[1..], y)
  {
    assert xs == [xs[0]] + xs[1..];
  }

  function Listed(r: Reader, t: u32): nat {
    if r.topic == t && r.active then 1 else 0
  }

  /** The table lists every active reader once, under its task, and nobody else. */
  ghost predicate Lists(table: Table, rs: seq<Reader>) {
    && (forall t: u32, i: nat {:trigger Count(Entry(table, t), i)} :: i < |rs| ==>
          Count(Entry(table, t), i) == Listed(rs[i], t))
    && (forall t: u32, i: nat {:trigger i in Entry(table, t)} :: i in Entry(table, t) ==> i < |rs|)
  }

  function CopyOf(s: State, j: nat): Delivery
    requires j < |s.jobs|
  {
    Delivery(j, s.jobs[j].result)
  }

  /** What handler j owes reader i and what it offered it are together what an ideal server put in the inbox. */
  ghost predicate Balanced(s: State, rs: seq<Reader>, i: nat, j: nat)
    requires i < |rs| == |s.subs|
  {
    if j < |s.jobs| then
      rs[i].inbox[j] == Count(s.subs[i].offered, CopyOf(s, j)) + Count(Rest(s, j), i)
    else
      rs[i].inbox[j] == 0
  }

  ghost predicate AllBalanced(s: State, rs: seq<Reader>)
    requires |rs| == |s.subs|
  {
    forall i: nat, j: nat {:trigger Balanced(s, rs, i, j)} :: i < |rs| ==> Balanced(s, rs, i, j)
  }

  ghost predicate Rel(s: State, rs: seq<Reader>) {
    && SameTopics(s, rs) && Lists(s.table, rs) && AllBalanced(s, rs)
  }

  lemma {:induction false} TopicsStep(s: State, rs: seq<Reader>, e: Step)
    requires SameTopics(s, rs) && Enabled(s, e)
    ensures SameTopics(Next(s, e), ApplyOpt(rs, OpOf(s, e)))
  {
  }

  lemma {:induction false} ListsSubscribe(table: Table, rs: seq<Reader>, t: u32)
    requires Lists(table, rs)
    ensures Lists(Registered(table, t, |rs|), rs + [Reader(t, true, multiset{})])
  {
    var n, ns := Registered(table, t, |rs|), rs + [Reader(t, true, multiset{})];
    forall u: u32, i: nat | i < |ns| ensures Count(Entry(n, u), i) == Listed(ns[i], u) {
      CountSnoc(Entry(table, u), |rs|, i);
      if i == |rs| {
        assert i !in Entry(table, u);
      } else {
        assert Count(Entry(table, u), i) == Listed(rs[i], u);
      }
    }
  }

  lemma {:induction false} ListsFinish(table: Table, rs: seq<Reader>, t: u32)
    requires Lists(table, rs)
    ensures Lists(Disconnected(table, t), Finish(rs, t))
  {
    var n, ns := Disconnected(table, t), Finish(rs, t);
    forall u: u32, i: nat | i < |ns| ensures Count(Entry(n, u), i) == Listed(ns[i], u) {
      assert Count(Entry(table, u), i) == Listed(rs[i], u);
    }
  }

  lemma {:induction false} ListsPublish(table: Table, rs: seq<Reader>, h: nat, t: u32)
    requires Lists(table, rs)
    ensures Lists(table, Publish(rs, h, t))
  {
    var ns := Publish(rs, h, t);
    forall u: u32, i: nat | i < |ns| ensures Count(Entry(table, u), i) == Listed(ns[i], u) {
      assert Count(Entry(table, u), i) == Listed(rs[i], u);
    }
  }

  lemma {:induction false} ListsStep(s: State, rs: seq<Reader>, e: Step)
    requires SameTopics(s, rs) && Lists(s.table, rs) && Enabled(s, e)
    ensures Lists(Next(s, e).table, ApplyOpt(rs, OpOf(s, e)))
  {
    match e {
      case Subscribe(t) => ListsSubscribe(s.table, rs, t);
      case Snapshot(j) => ListsPublish(s.table, rs, j, s.jobs[j].result.taskId);
      case Disconnect(t) => ListsFinish(s.table, rs, t);
      case Send(j) => assert Next(s, e).table == s.table;
      case _ => assert Next(s, e).table == s.table;
    }
  }

  lemma {:induction false} NotYet(x: Sub, jobs: seq<Job>, d: Delivery)
    requires GenuineSub(x, jobs) && d.job >= |jobs|
    ensures Count(x.offered, d) == 0
  {
    assert forall c :: c in x.offered ==> c != d;
  }

  lemma {:induction false} BalancedSubscribe(s: State, rs: seq<Reader>, t: u32, i: nat, j: nat)
    requires SameTopics(s, rs) && AllBalanced(s, rs) && ClonesSorted(s) && i <= |rs|
    ensures Balanced(Next(s, Subscribe(t)), rs + [Reader(t, true, multiset{})], i, j)
  {
    if i < |rs| {
      assert Balanced(s, rs, i, j);
    } else {
      assert i in Rest(s, j) ==> i in Clones(s, j);
    }
  }

  lemma {:induction false} BalancedArrive(s: State, rs: seq<Reader>, result: TaskResult, i: nat, j: nat)
    requires SameTopics(s, rs) && AllBalanced(s, rs) && Genuine(s) && i < |rs|
    ensures Balanced(Next(s, Arrive(result)), rs, i, j)
  {
    assert Balanced(s, rs, i, j);
    if j == |s.jobs| { NotYet(s.subs[i], s.jobs, Delivery(j, result)); }
  }

  lemma {:induction false} BalancedSnapshot(s: State, rs: seq<Reader>, h: nat, i: nat, j: nat)
    requires SameTopics(s, rs) && AllBalanced(s, rs) && Lists(s.table, rs) && i < |rs|
    requires h < |s.jobs| && s.jobs[h].phase.Arrived?
    ensures Balanced(Next(s, Snapshot(h)), Publish(rs, h, s.jobs[h].result.taskId), i, j)
  {
    assert Balanced(s, rs, i, j);
    var t := s.jobs[h].result.taskId;
    assert Count(Entry(s.table, t), i) == Listed(rs[i], t);
  }

  lemma {:induction false} BalancedSend(s: State, rs: seq<Reader>, h: nat, i: nat, j: nat)
    requires SameTopics(s, rs) && AllBalanced(s, rs) && Rest(s, h) != [] && i < |rs|
    ensures Balanced(AfterSend(s, h), rs, i, j)
  {
    assert Balanced(s, rs, i, j);
    CountHead(Rest(s, h), i);
    if j < |s.jobs| { CountSnoc(s.subs[i].offered, CopyOf(s, h), CopyOf(s, j)); }
  }

  lemma {:induction false} BalancedStep(s: State, rs: seq<Reader>, e: Step, i: nat, j: nat)
    requires Rel(s, rs) && Genuine(s) && ClonesSorted(s) && Enabled(s, e)
    requires SameTopics(Next(s, e), ApplyOpt(rs, OpOf(s, e))) && i < |Next(s, e).subs|
    ensures Balanced(Next(s, e), ApplyOpt(rs, OpOf(s, e)), i, j)
  {
    match e {
      case Subscribe(t) => BalancedSubscribe(s, rs, t, i, j);
      case Arrive(result) => BalancedArrive(s, rs, result, i, j);
      case Snapshot(h) => BalancedSnapshot(s, rs, h, i, j);
      case Send(h) => BalancedSend(s, rs, h, i, j);
      case _ => assert Balanced(s, rs, i, j);
    }
  }

  lemma {:induction false} RelStep(s: State, rs: seq<Reader>, e: Step)
    requires Rel(s, rs) && Genuine(s) && ClonesSorted(s) && Enabled(s, e)
    ensures Rel(Next(s, e), ApplyOpt(rs, OpOf(s, e)))
  {
    TopicsStep(s, rs, e);
    ListsStep(s, rs, e);
    var n, ns := Next(s, e), ApplyOpt(rs, OpOf(s, e));
    forall i: nat, j: nat | i < |ns| ensures Balanced(n, ns, i, j) {
      BalancedStep(s, rs, e, i, j);
    }
  }

  // ----- a handler publishes to a reader at most once -----

  ghost predicate Once(s: State, rs: seq<Reader>) {
    forall i: nat, j: nat {:trigger rs[i].inbox[j]} :: i < |rs| ==>
      && rs[i].inbox[j] <= 1
      && (j < |s.jobs| && s.jobs[j].phase.Arrived? ==> rs[i].inbox[j] == 0)
  }

  lemma {:induction false} OnceAt(s: State, rs: seq<Reader>, e: Step, i: nat, j: nat)
    requires Rel(s, rs) && Once(s, rs) && Enabled(s, e) && i < |ApplyOpt(rs, OpOf(s, e))|
    ensures ApplyOpt(rs, OpOf(s, e))[i].inbox[j] <= 1
    ensures j < |Next(s, e).jobs| && Next(s, e).jobs[j].phase.Arrived? ==> ApplyOpt(rs, OpOf(s, e))[i].inbox[j] == 0
  {
    if i < |rs| {
      assert rs[i].inbox[j] <= 1;
      assert Balanced(s, rs, i, j);
    }
  }

  lemma {:induction false} OnceStep(s: State, rs: seq<Reader>, e: Step)
    requires Rel(s, rs) && Once(s, rs) && Enabled(s, e)
    ensures Once(Next(s, e), ApplyOpt(rs, OpOf(s, e)))
  {
    var n, ns := Next(s, e), ApplyOpt(rs, OpOf(s, e));
    forall i: nat, j: nat | i < |ns|
      ensures ns[i].inbox[j] <= 1
      ensures j < |n.jobs| && n.jobs[j].phase.Arrived? ==> ns[i].inbox[j] == 0
    {
      OnceAt(s, rs, e, i, j);
    }
  }

  // ----- channels -----

  /** A channel keeps the order of sends; a reader that went away has the first ones. */
  ghost predicate Channel(x: Sub) {
    && (x.status.Open? ==> x.offered == x.streamed + x.queue)
    && (x.status.Closed? ==> x.offered == x.streamed && x.queue == [])
    && (x.status.Dropped? ==> x.streamed <= x.offered && x.queue == [])
  }

  ghost predicate Channels(s: State) {
    forall i :: 0 <= i < |s.subs| ==> Channel(s.subs[i])
  }

  /** No sender is left of a stream that ended. */
  ghost predicate Ended(s: State) {
    forall i: nat :: i < |s.subs| && s.subs[i].status.Closed? ==> !Held(s, i)
  }

  lemma {:induction false} HeldGrows(s: State, e: Step, i: nat)
    requires Enabled(s, e) && i < |s.subs| && !Held(s, i)
    ensures !Held(Next(s, e), i)
  {
    var n := Next(s, e);
    forall t: u32 ensures i !in Entry(n.table, t) {
      assert i !in Entry(s.table, t);
    }
    forall j: nat ensures i !in Clones(n, j) {
      assert i !in Clones(s, j);
      if j < |s.jobs| { assert i !in Entry(s.table, s.jobs[j].result.taskId); }
    }
  }

  lemma {:induction false} EndedStep(s: State, e: Step)
    requires Ended(s) && Enabled(s, e)
    ensures Ended(Next(s, e))
  {
    var n := Next(s, e);
    forall i: nat | i < |n.subs| && n.subs[i].status.Closed? ensures !Held(n, i) {
      HeldGrows(s, e, i);
    }
  }

  lemma {:induction false} OfferKeepsChannel(x: Sub, d: Delivery)
    requires Channel(x) && !x.status.Closed?
    ensures Channel(Offer(x, d))
  {
    if x.status.Open? { Associative(x.streamed, x.queue, [d]); }
  }

  lemma {:induction false} ForwardKeepsChannel(x: Sub)
    requires Channel(x) && x.status.Open? && x.queue != []
    ensures Channel(x.(queue := x.queue[1..], streamed := x.streamed + [x.queue[0]]))
  {
    assert x.queue == [x.queue[0]] + x.queue[1..];
    Associative(x.streamed, [x.queue[0]], x.queue[1..]);
  }

  lemma {:induction false} ChannelsStep(s: State, e: Step)
    requires Channels(s) && Ended(s) && Enabled(s, e)
    ensures Channels(Next(s, e))
  {
    var n := Next(s, e);
    forall k | 0 <= k < |n.subs| ensures Channel(n.subs[k]) {
      if k < |s.subs| { assert Channel(s.subs[k]); }
      match e {
        case Send(j) =>
          var d := Delivery(j, s.jobs[j].result);
          if k == Rest(s, j)[0] {
            assert k in Clones(s, j);
            OfferKeepsChannel(s.subs[k], d);
          }
        case Forward(i) => if k == i { ForwardKeepsChannel(s.subs[i]); }
        case _ =>
      }
    }
  }

  // ----- whole runs -----

  ghost predicate Inv(s: State) {
    TableSorted(s) && ClonesSorted(s) && Genuine(s) && Ended(s) && Channels(s)
  }

  ghost predicate Good(s: State, rs: seq<Reader>) {
    Inv(s) && Rel(s, rs) && Once(s, rs)
  }

  lemma {:induction false} GoodStep(s: State, rs: seq<Reader>, e: Step)
    requires Good(s, rs) && Enabled(s, e)
    ensures Good(Next(s, e), ApplyOpt(rs, OpOf(s, e)))
  {
    TableSortedStep(s, e);
    ClonesSortedStep(s, e);
    GenuineStep(s, e);
    EndedStep(s, e);
    ChannelsStep(s, e);
    RelStep(s, rs, e);
    OnceStep(s, rs, e);
  }

  lemma {:induction false} RunGood(es: seq<Step>)
    requires Run(es).Some?
    ensures Good(Run(es).value, Readers(Ops(es)))
    decreases |es|
  {
    if es != [] {
      var front, e := es[..|es| - 1], es[|es| - 1];
      RunGood(front);
      var s := Run(front).value;
      GoodStep(s, Readers(Ops(front)), e);
      if OpOf(s, e).Some? { ReadersSnoc(Ops(front), OpOf(s, e).value); }
    }
  }

  /** In every run the server is related to an ideal one that did the subscriptions, publications and finishes
      of the run one after the other, each in a single step. */
  lemma {:induction false} RefinesAtomicPublish(es: seq<Step>)
    requires Run(es).Some?
    ensures Rel(Run(es).value, Readers(Ops(es)))
  {
    RunGood(es);
  }

  function Received(x: Sub): seq<Delivery> {
    x.streamed + x.queue
  }

  ghost function Due(es: seq<Step>, i: nat, j: nat): nat
    requires i < Subscriptions(Ops(es))
  {
    if Owed(Ops(es), i, j) then 1 else 0
  }

  /** Every reader is known to the ideal server, and its inbox holds each handler's result once if that
      published in the reader's window, and otherwise not at all. */
  lemma {:induction false} InboxIsDue(es: seq<Step>, i: nat, j: nat)
    requires Run(es).Some? && i < |Run(es).value.subs|
    ensures i < Subscriptions(Ops(es)) && i < |Readers(Ops(es))|
    ensures Readers(Ops(es))[i].inbox[j] == Due(es, i, j)
  {
    RunGood(es);
    ReaderCount(Ops(es));
    InboxIsWindow(Ops(es), i, j);
    assert Readers(Ops(es))[i].inbox[j] <= 1;
  }

  /** No finish of the reader's task since it registered. */
  ghost predicate TaskGoesOn(es: seq<Step>, i: nat)
    requires i < Subscriptions(Ops(es))
  {
    Unfinished(Ops(es), Ops(es)[RegisteredAt(Ops(es), i)].topic, RegisteredAt(Ops(es), i), |Ops(es)|)
  }

  lemma {:induction false} ActiveReader(es: seq<Step>, i: nat)
    requires Run(es).Some? && i < |Run(es).value.subs|
    ensures i < Subscriptions(Ops(es)) && i < |Readers(Ops(es))|
    ensures Readers(Ops(es))[i].active <==> TaskGoesOn(es, i)
    ensures Ops(es)[RegisteredAt(Ops(es), i)].topic == Run(es).value.subs[i].topic
    ensures Lists(Run(es).value.table, Readers(Ops(es)))
  {
    RunGood(es);
    ReaderCount(Ops(es));
    InboxIsWindow(Ops(es), i, 0);
  }

  /** A reader that has not gone away has received the result of a returned handler exactly once if the
      handler's snapshot fell between the reader's registration and the next finish of its task, and
      otherwise not at all. Other handlers may still be at work. */
  lemma {:induction false} ExactlyOnce(es: seq<Step>, i: nat, j: nat)
    requires Run(es).Some?
    requires var s := Run(es).value;
             i < |s.subs| && !s.subs[i].status.Dropped? && j < |s.jobs| && s.jobs[j].phase.Done?
    ensures var s := Run(es).value;
            i < Subscriptions(Ops(es)) && Count(Received(s.subs[i]), CopyOf(s, j)) == Due(es, i, j)
  {
    RunGood(es);
    InboxIsDue(es, i, j);
    var s := Run(es).value;
    assert Balanced(s, Readers(Ops(es)), i, j);
    assert Channel(s.subs[i]);
    assert Received(s.subs[i]) == s.subs[i].offered;
  }

  /** What a reader receives are copies of handlers' results, all of its own task; one that went away has the
      first of those it was offered. */
  lemma {:induction false} NothingForeign(es: seq<Step>, i: nat)
    requires Run(es).Some? && i < |Run(es).value.subs|
    ensures var s := Run(es).value;
            var x := s.subs[i];
            && Received(x) <= x.offered
            && forall d :: d in Received(x) ==>
                 d.job < |s.jobs| && d == CopyOf(s, d.job) && d.result.taskId == x.topic
  {
    RunGood(es);
    var s := Run(es).value;
    var x := s.subs[i];
    assert Channel(x);
    assert GenuineSub(x, s.jobs);
    assert Received(x) <= x.offered;
    forall d | d in Received(x) ensures d in x.offered {
      var k :| 0 <= k < |Received(x)| && Received(x)[k] == d;
      assert x.offered[k] == d;
    }
  }

  /** A stream ends only after its task was finished, with nothing owed: every result whose snapshot fell in
      the reader's window has been streamed, once, even when its handler was overtaken by the finish. */
  lemma {:induction false} EndOfStreamLosesNothing(es: seq<Step>, i: nat, j: nat)
    requires Run(es).Some?
    requires var s := Run(es).value;
             i < |s.subs| && s.subs[i].status.Closed? && j < |s.jobs|
    ensures var s := Run(es).value;
            && i < Subscriptions(Ops(es))
            && Count(s.subs[i].streamed, CopyOf(s, j)) == Due(es, i, j)
            && !TaskGoesOn(es, i)
  {
    RunGood(es);
    InboxIsDue(es, i, j);
    ActiveReader(es, i);
    var s, rs := Run(es).value, Readers(Ops(es));
    assert Balanced(s, rs, i, j);
    assert Channel(s.subs[i]);
    assert !Held(s, i);
    assert i !in Clones(s, j);
    assert Count(Entry(s.table, rs[i].topic), i) == Listed(rs[i], rs[i].topic);
  }

  /** A stream that has ended stays as it is. */
  lemma {:induction false} EndedForGood(es: seq<Step>, e: Step, i: nat)
    requires Run(es).Some? && Run(es + [e]).Some?
    requires i < |Run(es).value.subs| && Run(es).value.subs[i].status.Closed?
    ensures i < |Run(es + [e]).value.subs| && Run(es + [e]).value.subs[i] == Run(es).value.subs[i]
  {
    assert (es + [e])[..|es|] == es;
    RunGood(es);
    var s := Run(es).value;
    assert !Held(s, i);
    if e.Send? {
      assert Rest(s, e.job)[0] in Clones(s, e.job);
    }
  }

  ghost predicate NobodySending(s: State) {
    forall j :: 0 <= j < |s.jobs| ==> !s.jobs[j].phase.Sending?
  }

  lemma {:induction false} HeldByTable(s: State, rs: seq<Reader>, i: nat)
    requires Lists(s.table, rs) && i < |rs| && NobodySending(s)
    ensures Held(s, i) <==> rs[i].active
  {
    forall j: nat ensures i !in Clones(s, j) {
    }
    if rs[i].active {
      assert Count(Entry(s.table, rs[i].topic), i) == Listed(rs[i], rs[i].topic);
      assert i in Entry(s.table, rs[i].topic);
    } else {
      forall t: u32 ensures i !in Entry(s.table, t) {
        assert Count(Entry(s.table, t), i) == Listed(rs[i], t);
      }
    }
  }

  /** When no handler is in flight, a reader's senders are gone, so that its drained stream can end, exactly
      when its task has been finished since the registration. */
  lemma {:induction false} FinishedStreamsEnd(es: seq<Step>, i: nat)
    requires Run(es).Some? && NobodySending(Run(es).value) && i < |Run(es).value.subs|
    ensures i < Subscriptions(Ops(es))
    ensures Held(Run(es).value, i) <==> TaskGoesOn(es, i)
  {
    ActiveReader(es, i);
    HeldByTable(Run(es).value, Readers(Ops(es)), i);
  }

  /** x has been offered what it had been and more, none of that by handler j. */
  ghost predicate OfferedMore(x: Sub, y: Sub, j: nat) {
    x.offered <= y.offered && forall k :: |x.offered| <= k < |y.offered| ==> y.offered[k].job != j
  }

  lemma {:induction false} OfferedMoreStep(s: State, e: Step, i: nat, j: nat)
    requires Enabled(s, e) && i < |s.subs| && j < |s.jobs| && s.jobs[j].phase.Done?
    ensures var n := Next(s, e);
            && i < |n.subs| && j < |n.jobs| && n.jobs[j].phase.Done?
            && OfferedMore(s.subs[i], n.subs[i], j)
  {
  }

  /** Once a handler has returned it offers nothing more. So the results of a client, which waits for each
      reply before its next call, reach every reader in the order of its calls. */
  lemma {:induction false} CallsInOrder(front: seq<Step>, more: seq<Step>, i: nat, j: nat)
    requires Run(front).Some? && Run(front + more).Some?
    requires var s := Run(front).value;
             i < |s.subs| && j < |s.jobs| && s.jobs[j].phase.Done?
    ensures var s, n := Run(front).value, Run(front + more).value;
            && i < |n.subs| && j < |n.jobs| && n.jobs[j].phase.Done?
            && OfferedMore(s.subs[i], n.subs[i], j)
            && forall d :: d in s.subs[i].offered ==> d.job < |s.jobs|
    decreases |more|
  {
    RunGood(front);
    assert GenuineSub(Run(front).value.subs[i], Run(front).value.jobs);
    if more == [] {
      assert front + more == front;
    } else {
      var es := front + more[..|more| - 1];
      assert (front + more)[..|front + more| - 1] == es;
      CallsInOrder(front, more[..|more| - 1], i, j);
      OfferedMoreStep(Run(es).value, more[|more| - 1], i, j);
    }
  }
}
