// From a probe to the subscribers of its task: the components joined.
module EndToEnd {
  import opened Common
  import opened Schema
  import opened Packet
  import opened Signing
  import opened Addresses
  import opened Batching
  import opened Inbound
  import opened RoundTrip
  import opened Outbound
  import OutboundRun
  import InboundRun
  import PubSub
  import PubSubRun
  import Encoder
  import Decoder

  /** A task between IPv4 addresses probes destination d. */
  ghost predicate V4Probe(task: Task, d: Address) {
    && task.ping.Some?
    && d in task.ping.value.destinationAddresses && d.value.V4?
    && task.ping.value.sourceAddress.Some? && task.ping.value.sourceAddress.value.value.V4?
  }

  /** Sizes of a probe and of any packet that brings its body back: the receive buffer of 1500 bytes and the
      bound of the checksum are far off. */
  lemma {:induction false} ProbeFits(mac: Mac, task: Task, d: Address, time: u64, h: IPv4Header, reply: ICMP4Packet)
    requires V4Probe(task, d) && h.Valid()
    requires reply.body == SignedBytes(mac, SECRET, Body(task, d, time))
    ensures |EncodePayload(Body(task, d, time))| <= 33
    ensures |reply.body| <= 65
    ensures |Probe(mac, task, d, time)| <= 73
    ensures |h.Bytes() + IcmpBytes(reply)| <= 133 <= BUFFER_SIZE
  {
    PayloadSize(mac, SECRET, Body(task, d, time));
  }

  /** The body of a probe is the signed payload. */
  lemma {:induction false} ProbeBody(mac: Mac, task: Task, d: Address, time: u64)
    ensures IcmpOf(Probe(mac, task, d, time)).Some?
    ensures IcmpOf(Probe(mac, task, d, time)).value.body == SignedBytes(mac, SECRET, Body(task, d, time))
  {
    EchoParses(1, 2, SignedBytes(mac, SECRET, Body(task, d, time)));
  }

  /** r is the result of a probe of destination d for a task. */
  ghost predicate ResultOf(r: Result, task: Task, d: Address, time: u64) {
    && r.ping.Some? && r.ping.value.payload == Some(BarePayload(Body(task, d, time)))
    && Describes(r.ping.value.payload.value, task, d, time)
    && TaskIdOf(r) == task.taskId
  }

  /** Whatever packet brings the body of a probe back, with any valid IPv4 header, options included, and any
      type, code, checksum, identifier and sequence number: it is parsed, accepted, and gives a result with the
      task's id, source and probed destination, and with the sender, receiver, TTL and time of the packet. */
  lemma {:induction false} EchoIsAttributed(mac: Mac, task: Task, d: Address, time: u64,
                                            h: IPv4Header, reply: ICMP4Packet, when: u64)
    requires V4Probe(task, d) && h.Valid() && h.protocol == 1
    requires IcmpOf(Probe(mac, task, d, time)).Some?
    requires reply.body == IcmpOf(Probe(mac, task, d, time)).value.body
    ensures IPv4Of(h.Bytes() + IcmpBytes(reply)).Some?
    ensures var r := Attribute(mac, Arrival(when, IPv4Of(h.Bytes() + IcmpBytes(reply)).value));
            && r.Some? && ResultOf(r.value, task, d, time)
            && r.value.ping.value.payload.value.sourceAddress == Some(BareAddress(task.ping.value.sourceAddress.value))
            && r.value.ping.value.payload.value.destinationAddress == Some(BareAddress(d))
            && r.value.ping.value.sourceAddress == Some(Address(V4(h.source), 0))
            && r.value.ping.value.destinationAddress == Some(Address(V4(h.destination), 0))
            && r.value.ping.value.ttl == h.timeToLive && r.value.ping.value.receiveTime == when
  {
    ProbeBody(mac, task, d, time);
    ProbeFits(mac, task, d, time, h, reply);
    IPv4CarriesIcmp(h, reply);
    SignedVerifies(mac, SECRET, Body(task, d, time));
    BodyDescribes(task, d, time);
  }

  /** Such a packet is received whole: a receiver that reads it hands on just that packet. */
  lemma {:induction false} EchoArrives(mac: Mac, task: Task, d: Address, time: u64,
                                       h: IPv4Header, reply: ICMP4Packet, when: u64, s: InboundRun.State)
    requires V4Probe(task, d) && h.Valid() && h.protocol == 1
    requires reply.body == SignedBytes(mac, SECRET, Body(task, d, time))
    ensures var n := InboundRun.AfterReceive(s, h.Bytes() + IcmpBytes(reply), when);
            && n.receiver.Holding? && n.receiver.arrival.packet.payload == ICMPv4(reply)
            && n.arrived == s.arrived + [Arrival(when, IPv4Packet(h.timeToLive, h.source, h.destination, ICMPv4(reply)))]
  {
    ProbeFits(mac, task, d, time, h, reply);
    IPv4CarriesIcmp(h, reply);
    assert |h.Bytes() + IcmpBytes(reply)| > 0;
  }

  // ----- into the batch of the task -----

  /** Every batch sent holds results of its own task only. */
  ghost predicate OwnResults(cs: seq<Call>) {
    forall k :: 0 <= k < |cs| ==> OfOneTask(cs[k].batch)
  }

  lemma {:induction false} CurrentIsOwn(sent: seq<TaskResult>, tr: TaskResult, done: seq<Result>, metadata: Metadata)
    requires Grouped(sent, tr, done, metadata) && tr.resultList != []
    ensures OfOneTask(tr)
  {
    var bs := WithCurrent(sent, tr);
    assert bs[|bs| - 1] == tr;
  }

  lemma {:induction false} OwnCall(cs: seq<Call>, tr: TaskResult, ok: bool)
    requires OwnResults(cs) && OfOneTask(tr)
    ensures OwnResults(cs + [Call(tr, ok)])
  {
  }

  /** A step makes no call, or one with the current batch. */
  lemma {:induction false} OneCallAStep(mac: Mac, metadata: Metadata, s: InboundRun.State, e: InboundRun.Step)
    requires InboundRun.Enabled(s, e)
    ensures var n := InboundRun.Next(mac, metadata, s, e);
            || n.calls == s.calls
            || (&& s.transmitter.Grouping? && s.transmitter.round.tr.resultList != [] && (e.Group? || e.Finish?)
                && n.calls == s.calls + [Call(s.transmitter.round.tr, e.ok)])
  {
  }

  lemma {:induction false} OwnResultsStep(mac: Mac, metadata: Metadata, s: InboundRun.State, e: InboundRun.Step)
    requires OwnResults(s.calls) && InboundRun.Shaped(metadata, s) && InboundRun.Enabled(s, e)
    ensures OwnResults(InboundRun.Next(mac, metadata, s, e).calls)
  {
    OneCallAStep(mac, metadata, s, e);
    if InboundRun.Next(mac, metadata, s, e).calls != s.calls {
      var o := s.transmitter.round;
      CurrentIsOwn(Batches(o.sent), o.tr, o.done, metadata);
      OwnCall(s.calls, o.tr, e.ok);
    }
  }

  lemma {:induction false} RunOwnResults(mac: Mac, metadata: Metadata, es: seq<InboundRun.Step>)
    requires InboundRun.Run(mac, metadata, es).Some?
    ensures OwnResults(InboundRun.Run(mac, metadata, es).value.calls)
    decreases |es|
  {
    if es != [] {
      var front, e := es[..|es| - 1], es[|es| - 1];
      RunOwnResults(mac, metadata, front);
      InboundRun.RunInv(mac, metadata, front);
      OwnResultsStep(mac, metadata, InboundRun.Run(mac, metadata, front).value, e);
    }
  }

  /** A result that was sent is in some batch. */
  lemma {:induction false} InSomeBatch(cs: seq<Call>, r: Result) returns (k: nat)
    requires r in Flatten(Batches(cs))
    ensures k < |cs| && r in cs[k].batch.resultList
    decreases |cs|
  {
    var front, last := cs[..|cs| - 1], cs[|cs| - 1];
    assert cs == front + [last];
    InboundRun.OneMoreCall(front, last);
    if r in last.batch.resultList {
      k := |cs| - 1;
    } else {
      k := InSomeBatch(front, r);
    }
  }

  lemma {:induction false} ResultsMember(mac: Mac, ps: seq<Arrival>, a: Arrival)
    requires a in ps && Attribute(mac, a).Some?
    ensures Attribute(mac, a).value in InboundRun.Results(mac, ps)
    decreases |ps|
  {
    assert ps == [ps[0]] + ps[1..];
    InboundRun.OneFirst(mac, ps[0], ps[1..]);
    if ps[0] != a { ResultsMember(mac, ps[1..], a); }
  }

  ghost predicate Quiet(s: InboundRun.State) {
    && !s.receiver.Holding? && s.channel == [] && s.processor.Waiting?
    && s.queue == Some([]) && !s.transmitter.Grouping?
  }

  /** Once the threads are idle and the queue is empty, the result of every packet that arrived is in a batch
      that carries its task id. */
  lemma {:induction false} ArrivalIsBatched(mac: Mac, metadata: Metadata, es: seq<InboundRun.Step>, a: Arrival)
    returns (k: nat)
    requires InboundRun.Run(mac, metadata, es).Some? && Quiet(InboundRun.Run(mac, metadata, es).value)
    requires a in InboundRun.Run(mac, metadata, es).value.arrived && Attribute(mac, a).Some?
    ensures var s := InboundRun.Run(mac, metadata, es).value;
            && k < |s.calls| && Attribute(mac, a).value in s.calls[k].batch.resultList
            && s.calls[k].batch.taskId == TaskIdOf(Attribute(mac, a).value)
  {
    var s, r := InboundRun.Run(mac, metadata, es).value, Attribute(mac, a).value;
    var t := TaskIdOf(r);
    ResultsMember(mac, s.arrived, a);
    InboundRun.QuietRun(t, mac, metadata, es);
    OfTaskMember(t, InboundRun.Results(mac, s.arrived));
    OfTaskMember(t, InboundRun.SentResults(s));
    assert r in OfTask(t, InboundRun.SentResults(s));
    k := InSomeBatch(s.calls, r);
    RunOwnResults(mac, metadata, es);
    assert OfOneTask(s.calls[k].batch);
  }

  // ----- over the wire, to the subscribers -----

  /** A batch written by a client and read by the server. */
  method Transfer(tr: TaskResult) returns (r: Option<TaskResult>)
    ensures |EncodeTaskResult(tr)| < TWO32 ==> r == Some(BareTaskResult(tr)) && EqualTaskResult(r.value, tr)
  {
    var bytes, size := Encoder.TaskResultToBytes(tr);
    r := Decoder.TaskResultFromBytes(bytes);
    if |EncodeTaskResult(tr)| < TWO32 { TaskResultRoundTrip(tr); }
  }

  lemma {:induction false} ResultCrosses(tr: TaskResult, r: Result)
    requires r in tr.resultList
    ensures BareResult(r) in BareTaskResult(tr).resultList
  {
    var i :| 0 <= i < |tr.resultList| && tr.resultList[i] == r;
    assert BareResults(tr.resultList)[i] == BareResult(r);
  }

  lemma {:induction false} BareKeepsResult(r: Result, task: Task, d: Address, time: u64)
    requires ResultOf(r, task, d, time)
    ensures ResultOf(BareResult(r), task, d, time)
  {
  }

  /** A batch of the task holds a result of the probe. */
  ghost predicate Carries(tr: TaskResult, task: Task, d: Address, time: u64) {
    tr.taskId == task.taskId && exists r :: r in tr.resultList && ResultOf(r, task, d, time)
  }

  lemma {:induction false} CarriesAcross(tr: TaskResult, task: Task, d: Address, time: u64)
    requires Carries(tr, task, d, time) && |EncodeTaskResult(tr)| < TWO32
    ensures DecodeTaskResult(EncodeTaskResult(tr)).Some?
    ensures Carries(DecodeTaskResult(EncodeTaskResult(tr)).value, task, d, time)
  {
    TaskResultRoundTrip(tr);
    var r :| r in tr.resultList && ResultOf(r, task, d, time);
    ResultCrosses(tr, r);
    BareKeepsResult(r, task, d, time);
  }

  /** In a run of the server, handler j took up the bytes of a batch and has returned. */
  ghost predicate Handled(ss: seq<PubSubRun.Step>, j: nat, tr: TaskResult) {
    && PubSubRun.Run(ss).Some? && |EncodeTaskResult(tr)| < TWO32
    && j < |PubSubRun.Run(ss).value.jobs| && PubSubRun.Run(ss).value.jobs[j].phase.Done?
    && DecodeTaskResult(EncodeTaskResult(tr)) == Some(PubSubRun.Run(ss).value.jobs[j].result)
  }

  /** Reader i has not gone away. */
  ghost predicate Watching(ss: seq<PubSubRun.Step>, i: nat)
    requires PubSubRun.Run(ss).Some?
  {
    i < |PubSubRun.Run(ss).value.subs| && !PubSubRun.Run(ss).value.subs[i].status.Dropped?
  }

  /** Reader i has handler j's result, which carries that of the probe, exactly once if the handler published
      in the reader's window, and then it is a reader of the probe's task; otherwise it does not have it. */
  ghost predicate Informed(ss: seq<PubSubRun.Step>, i: nat, j: nat, task: Task, d: Address, time: u64)
    requires PubSubRun.Run(ss).Some? && j < |PubSubRun.Run(ss).value.jobs| && i < |PubSubRun.Run(ss).value.subs|
  {
    var s := PubSubRun.Run(ss).value;
    && Carries(s.jobs[j].result, task, d, time)
    && i < PubSub.Subscriptions(PubSubRun.Ops(ss))
    && PubSubRun.Count(PubSubRun.Received(s.subs[i]), PubSubRun.CopyOf(s, j)) == PubSubRun.Due(ss, i, j)
    && (PubSubRun.Due(ss, i, j) == 1 ==> s.subs[i].topic == task.taskId)
  }

  lemma {:induction false} ReadersAreInformed(ss: seq<PubSubRun.Step>, i: nat, j: nat, tr: TaskResult,
                                              task: Task, d: Address, time: u64)
    requires Carries(tr, task, d, time) && Handled(ss, j, tr) && Watching(ss, i)
    ensures Informed(ss, i, j, task, d, time)
  {
    CarriesAcross(tr, task, d, time);
    PubSubRun.ExactlyOnce(ss, i, j);
    PubSubRun.NothingForeign(ss, i);
    var s := PubSubRun.Run(ss).value;
    if PubSubRun.Due(ss, i, j) == 1 {
      assert PubSubRun.CopyOf(s, j) in PubSubRun.Received(s.subs[i]);
    }
  }

  /** A probe attempted in a run of the outbound threads comes back in a packet with its body, and that packet
      arrives in a run of the inbound threads. */
  ghost predicate ComesBack(mac: Mac, metadata: Metadata, os: seq<OutboundRun.Step>, n: nat, task: Task,
                            h: IPv4Header, reply: ICMP4Packet, when: u64, es: seq<InboundRun.Step>) {
    && OutboundRun.Run(mac, os).Some? && InboundRun.Run(mac, metadata, es).Some?
    && var o := OutboundRun.Run(mac, os).value;
    && n < |o.log| && o.log[n].thread < |o.threads| && task == o.threads[o.log[n].thread].task
    && h.Valid() && h.protocol == 1
    && IcmpOf(o.log[n].attempt.packet).Some? && reply.body == IcmpOf(o.log[n].attempt.packet).value.body
    && IPv4Of(h.Bytes() + IcmpBytes(reply)).Some?
    && Arrival(when, IPv4Of(h.Bytes() + IcmpBytes(reply)).value) in InboundRun.Run(mac, metadata, es).value.arrived
  }

  /** Once the inbound threads have come to rest, some call of theirs carries the result of that probe. */
  lemma {:induction false} ProbeIsReported(mac: Mac, metadata: Metadata, os: seq<OutboundRun.Step>, n: nat, task: Task,
                                           h: IPv4Header, reply: ICMP4Packet, when: u64, es: seq<InboundRun.Step>)
    returns (k: nat)
    requires ComesBack(mac, metadata, os, n, task, h, reply, when, es)
    requires Quiet(InboundRun.Run(mac, metadata, es).value)
    requires V4Probe(task, OutboundRun.Run(mac, os).value.log[n].attempt.destination)
    ensures k < |InboundRun.Run(mac, metadata, es).value.calls|
    ensures var a := OutboundRun.Run(mac, os).value.log[n].attempt;
            Carries(InboundRun.Run(mac, metadata, es).value.calls[k].batch, task, a.destination, a.time)
  {
    OutboundRun.PacketsAreProbes(mac, os);
    var sent := OutboundRun.Run(mac, os).value.log[n].attempt;
    assert sent.packet == Probe(mac, task, sent.destination, sent.time);
    EchoIsAttributed(mac, task, sent.destination, sent.time, h, reply, when);
    k := ArrivalIsBatched(mac, metadata, es, Arrival(when, IPv4Of(h.Bytes() + IcmpBytes(reply)).value));
  }

  /** The whole way: in every run of the server in which a handler took up that call and has returned, each
      reader still there is informed of the probe's result exactly when the handler's snapshot fell in the
      reader's window. */
  lemma {:induction false} ProbeReachesItsSubscribers(
      mac: Mac, metadata: Metadata, os: seq<OutboundRun.Step>, n: nat, task: Task,
      h: IPv4Header, reply: ICMP4Packet, when: u64, es: seq<InboundRun.Step>)
    returns (k: nat)
    requires ComesBack(mac, metadata, os, n, task, h, reply, when, es)
    requires Quiet(InboundRun.Run(mac, metadata, es).value)
    requires V4Probe(task, OutboundRun.Run(mac, os).value.log[n].attempt.destination)
    ensures k < |InboundRun.Run(mac, metadata, es).value.calls|
    ensures forall ss: seq<PubSubRun.Step>, i: nat, j: nat ::
              Handled(ss, j, InboundRun.Run(mac, metadata, es).value.calls[k].batch) && Watching(ss, i) ==>
                Informed(ss, i, j, task, OutboundRun.Run(mac, os).value.log[n].attempt.destination,
                         OutboundRun.Run(mac, os).value.log[n].attempt.time)
  {
    k := ProbeIsReported(mac, metadata, os, n, task, h, reply, when, es);
    var a := OutboundRun.Run(mac, os).value.log[n].attempt;
    var tr := InboundRun.Run(mac, metadata, es).value.calls[k].batch;
    forall ss: seq<PubSubRun.Step>, i: nat, j: nat | Handled(ss, j, tr) && Watching(ss, i)
      ensures Informed(ss, i, j, task, a.destination, a.time)
    {
      ReadersAreInformed(ss, i, j, tr, task, a.destination, a.time);
    }
  }
}
