// The inbound side of a client (src/client/handlers/ping_inbound.rs): what its three threads do to
// the state they share.
module Inbound {
  import opened Common
  import opened Schema
  import opened Packet
  import opened Signing
  import opened Addresses
  import opened Batching

  /** A parsed packet and when it came in. */
  datatype Arrival = Arrival(time: u64, packet: IPv4Packet)

  /** A call of `send_result` on the server, and whether it succeeded. */
  datatype Call = Call(batch: TaskResult, ok: bool)

  /** The size of the receive buffer; what does not fit is cut off. */
  const BUFFER_SIZE := 1500

  function Truncated(datagram: seq<byte>): seq<byte> {
    if |datagram| <= BUFFER_SIZE then datagram else datagram[..BUFFER_SIZE]
  }

  datatype ReceiverOutcome = Received | Stopped | Panicked

  /** The result made of a packet: only ICMP packets with a verified payload give one. */
  function Attribute(mac: Mac, a: Arrival): Option<Result> {
    match a.packet.payload
    case Unimplemented => None
    case ICMPv4(icmp) =>
      match Verify(mac, SECRET, icmp.body)
      case Rejected(_) => None
      case Accepted(payload) =>
        Some(Result(Some(PingResult(Some(V4Address(a.packet.sourceAddress)),
                                    Some(V4Address(a.packet.destinationAddress)),
                                    a.time, Some(payload), a.packet.ttl, 0)), 0))
  }

  /** value is a payload under our secret in the body of a packet: an ICMP packet whose body is an encoding and
      then its hash. */
  ghost predicate Signs(mac: Mac, a: Arrival, value: seq<byte>) {
    && a.packet.payload.ICMPv4?
    && a.packet.payload.value.body == value + mac(SECRET, value)
    && DecodePayload(value).Some?
  }

  /** r reports payload p and the addresses, TTL and time of a packet. */
  ghost predicate Reports(r: Result, a: Arrival, p: PingPayload) {
    && r.ping.Some?
    && r.ping.value.payload == Some(p)
    && r.ping.value.sourceAddress.Some? && r.ping.value.sourceAddress.value.value == V4(a.packet.sourceAddress)
    && r.ping.value.destinationAddress.Some?
    && r.ping.value.destinationAddress.value.value == V4(a.packet.destinationAddress)
    && r.ping.value.receiveTime == a.time
    && r.ping.value.ttl == a.packet.ttl
  }

  lemma {:induction false} SignedIsReported(mac: Mac, a: Arrival, value: seq<byte>)
    requires Signs(mac, a, value)
    ensures Attribute(mac, a).Some? && Reports(Attribute(mac, a).value, a, DecodePayload(value).value)
  {
    var body := a.packet.payload.value.body;
    assert body[..|body| - 32] == value && body[|body| - 32..] == mac(SECRET, value);
  }

  lemma {:induction false} ReportedIsSigned(mac: Mac, a: Arrival) returns (value: seq<byte>)
    requires Attribute(mac, a).Some?
    ensures Signs(mac, a, value)
  {
    var body := a.packet.payload.value.body;
    value := body[..|body| - 32];
    assert body == value + body[|body| - 32..];
  }

  /** A packet gives a result exactly when its body is signed, and that reports what is signed. */
  lemma {:induction false} AttributeExactly(mac: Mac, a: Arrival)
    ensures Attribute(mac, a).Some? <==> exists value :: Signs(mac, a, value)
    ensures forall value :: Signs(mac, a, value) ==>
              Attribute(mac, a).Some? && Reports(Attribute(mac, a).value, a, DecodePayload(value).value)
  {
    forall value | Signs(mac, a, value)
      ensures Attribute(mac, a).Some? && Reports(Attribute(mac, a).value, a, DecodePayload(value).value)
    {
      SignedIsReported(mac, a, value);
    }
    if Attribute(mac, a).Some? { var value := ReportedIsSigned(mac, a); }
  }

  function PingsOf(rs: seq<Result>): (ps: seq<Result>)
    ensures |ps| <= |rs|
  {
    if rs == [] then []
    else if rs[0].ping.Some? then [rs[0]] + PingsOf(rs[1..])
    else PingsOf(rs[1..])
  }

  /** No result is dropped from a queue of ping results. */
  lemma {:induction false} AllPings(rs: seq<Result>)
    requires forall i :: 0 <= i < |rs| ==> rs[i].ping.Some?
    ensures PingsOf(rs) == rs
    decreases |rs|
  {
    if rs != [] {
      AllPings(rs[1..]);
      assert rs == [rs[0]] + rs[1..];
    }
  }

  /** What is filtered: the results with a ping, in order. */
  lemma {:induction false} PingsKept(a: seq<Result>, b: seq<Result>)
    ensures PingsOf(a + b) == PingsOf(a) + PingsOf(b)
    ensures forall r :: r in PingsOf(a) <==> r in a && r.ping.Some?
    decreases |a|
  {
    if a == [] {
      assert a + b == b;
    } else {
      PingsKept(a[1..], b);
      assert (a + b)[1..] == a[1..] + b;
      assert a == [a[0]] + a[1..];
      if a[0].ping.Some? { Associative([a[0]], PingsOf(a[1..]), PingsOf(b)); }
    }
  }

  function Batches(cs: seq<Call>): (bs: seq<TaskResult>)
    ensures |bs| == |cs|
    ensures forall i :: 0 <= i < |cs| ==> bs[i] == cs[i].batch
  {
    if cs == [] then [] else [cs[0].batch] + Batches(cs[1..])
  }

  /** How many results the server has accepted. */
  function Delivered(cs: seq<Call>): nat {
    if cs == [] then 0
    else Delivered(cs[..|cs| - 1])
         + (if cs[|cs| - 1].ok then |cs[|cs| - 1].batch.resultList| else 0)
  }

  lemma {:induction false} DeliveredSnoc(cs: seq<Call>, c: Call)
    ensures Delivered(cs + [c]) == Delivered(cs) + (if c.ok then |c.batch.resultList| else 0)
    ensures Batches(cs + [c]) == Batches(cs) + [c.batch]
  {
    assert (cs + [c])[..|cs|] == cs;
    assert forall i :: 0 <= i <= |cs| ==> Batches(cs + [c])[i] == (Batches(cs) + [c.batch])[i];
  }

  class PingInbound {
    const mac: Mac
    const metadata: Metadata
    var channel: seq<Arrival>
    var resultQueue: Option<seq<Result>>
    var calls: seq<Call>
    var packetsReceived: nat
    var packetsValid: nat
    var packetsInvalid: nat
    var packetsTransmitted: nat

    constructor (mac: Mac, metadata: Metadata)
      ensures this.mac == mac && this.metadata == metadata
      ensures channel == [] && resultQueue == Some([]) && calls == []
      ensures packetsReceived == 0 && packetsValid == 0 && packetsInvalid == 0 && packetsTransmitted == 0
    {
      this.mac, this.metadata := mac, metadata;
      channel, resultQueue, calls := [], Some([]), [];
      packetsReceived, packetsValid, packetsInvalid, packetsTransmitted := 0, 0, 0, 0;
    }

    /** One turn of the receiver: an empty read is counted and ends it, a malformed packet panics. */
    method Receive(datagram: seq<byte>, time: u64) returns (outcome: ReceiverOutcome)
      modifies this`channel, this`packetsReceived
      ensures packetsReceived == old(packetsReceived) + 1
      ensures var data := if |datagram| <= 1500 then datagram else datagram[..1500];
              && outcome == (if datagram == [] then Stopped else if IPv4Of(data).None? then Panicked else Received)
              && channel == (if outcome.Received? then old(channel) + [Arrival(time, IPv4Of(data).value)]
                             else old(channel))
    {
      var data := Truncated(datagram);
      packetsReceived := packetsReceived + 1;
      if data == [] { return Stopped; }
      var packet := ParseIPv4(data);
      if packet.None? { return Panicked; }
      channel := channel + [Arrival(time, packet.value)];
      outcome := Received;
    }

    /** One turn of the processor: the next arrival is counted as valid exactly when it is an ICMP packet with a
        signed body, and as invalid otherwise; the result of a valid one, and nothing else, is queued. */
    method Process()
      requires channel != []
      modifies this`channel, this`resultQueue, this`packetsValid, this`packetsInvalid
      ensures channel == old(channel)[1..]
      ensures var genuine := exists value :: Signs(mac, old(channel)[0], value);
              && packetsValid == old(packetsValid) + (if genuine then 1 else 0)
              && packetsInvalid == old(packetsInvalid) + (if genuine then 0 else 1)
              && (!genuine ==> resultQueue == old(resultQueue))
      ensures old(channel)[0].packet.payload.Unimplemented? ==> packetsInvalid == old(packetsInvalid) + 1
      ensures forall value :: Signs(mac, old(channel)[0], value) && old(resultQueue).Some? ==>
                && resultQueue.Some? && |resultQueue.value| == |old(resultQueue).value| + 1
                && old(resultQueue).value <= resultQueue.value
                && Reports(resultQueue.value[|old(resultQueue).value|], old(channel)[0], DecodePayload(value).value)
      ensures var r := Attribute(mac, old(channel)[0]);
              resultQueue == (if r.Some? && old(resultQueue).Some? then Some(old(resultQueue).value + [r.value])
                              else old(resultQueue))
    {
      var a := channel[0];
      AttributeExactly(mac, a);
      channel := channel[1..];
      var payload := None;
      if a.packet.payload.ICMPv4? {
        var v := FromSignedBytes(mac, SECRET, a.packet.payload.value.body);
        if v.Accepted? { payload := Some(v.payload); }
      }
      if payload.None? {
        packetsInvalid := packetsInvalid + 1;
        return;
      }
      packetsValid := packetsValid + 1;
      var pr := NEW_PING_RESULT;
      pr := pr.(payload := payload);
      pr := pr.(sourceAddress := Some(V4Address(a.packet.sourceAddress)));
      pr := pr.(destinationAddress := Some(V4Address(a.packet.destinationAddress)));
      pr := pr.(receiveTime := a.time);
      pr := pr.(ttl := a.packet.ttl);
      var result := NEW_RESULT.(ping := Some(pr));
      if resultQueue.Some? {
        resultQueue := Some(resultQueue.value + [result]);
      }
    }

    method SendResult(tr: TaskResult, ok: bool)
      modifies this`calls, this`packetsTransmitted
      ensures calls == old(calls) + [Call(tr, ok)]
      ensures packetsTransmitted == old(packetsTransmitted) + (if ok then |tr.resultList| else 0)
    {
      calls := calls + [Call(tr, ok)];
      if ok {
        packetsTransmitted := packetsTransmitted + |tr.resultList|;
      }
    }

    /** The body of the grouping loop: a result of another task closes the current batch, which is sent unless
        it is empty, and opens one that names this client. */
    method Add(tr: TaskResult, result: Result, ok: bool) returns (next: TaskResult)
      modifies this`calls, this`packetsTransmitted
      ensures Keyed(result, tr.taskId) ==>
                && next == tr.(resultList := tr.resultList + [result])
                && calls == old(calls) && packetsTransmitted == old(packetsTransmitted)
      ensures !Keyed(result, tr.taskId) ==>
                && Keyed(result, next.taskId) && next.resultList == [result] && !next.isFinished
                && next.client.Some? && next.client.value.metadata == Some(metadata)
                && calls == old(calls) + (if tr.resultList != [] then [Call(tr, ok)] else [])
                && packetsTransmitted == old(packetsTransmitted) + (if ok then |tr.resultList| else 0)
      ensures next == Grown(tr, result, metadata)
      ensures Progress(calls, packetsTransmitted)
           == if Flushes(tr, result) then Sent(old(Progress(calls, packetsTransmitted)), tr, ok)
              else old(Progress(calls, packetsTransmitted))
    {
      next := tr;
      KeyIs(result, tr.taskId);
      KeyIs(result, TaskIdOf(result));
      if next.taskId != TaskIdOf(result) {
        if next.resultList != [] {
          SendResult(next, ok);
        }
        next := NEW_TASK_RESULT;
        next := next.(taskId := TaskIdOf(result));
        next := next.(client := Some(NEW_CLIENT.(metadata := Some(metadata))));
      }
      next := next.(resultList := next.resultList + [result]);
    }

    /** The grouping loop: sends sorted results in batches. Any of the calls may fail. */
    method SendGrouped(rqPing: seq<Result>) returns (ghost round: seq<Call>, ghost cuts: seq<nat>)
      requires Sorted(rqPing)
      modifies this`calls, this`packetsTransmitted
      ensures calls == old(calls) + round
      ensures packetsTransmitted == old(packetsTransmitted) + Delivered(round)
      ensures Partitions(Batches(round), rqPing, metadata)
      ensures CutUp(Batches(round), rqPing, metadata, cuts)
    {
      ghost var start := Progress(calls, packetsTransmitted);
      var tr := FIRST_BATCH;
      round := [];
      GroupedStart(metadata);
      for i := 0 to |rqPing|
        invariant Sending(start, Progress(calls, packetsTransmitted), round, tr, rqPing[..i], metadata)
      {
        var ok: bool := *;
        TakeOne(start, Progress(calls, packetsTransmitted), round, tr, rqPing, i, metadata, ok);
        round := Closed(round, tr, rqPing[i], ok);
        tr := Add(tr, rqPing[i], ok);
      }
      assert rqPing[..|rqPing|] == rqPing;
      if tr.resultList != [] {
        var ok: bool := *;
        LastBatch(start, Progress(calls, packetsTransmitted), round, tr, rqPing, metadata, ok);
        SendResult(tr, ok);
        round := round + [Call(tr, ok)];
      }
      cuts := PartitionCuts(Batches(round), rqPing, metadata);
    }

    /** One round of the transmitter: takes the queue, sorts it, and sends it in batches. The batches
        partition the sorted ping results. */
    method TransmitRound() returns (ghost round: seq<Call>, ghost cuts: seq<nat>)
      requires resultQueue.Some?
      modifies this`resultQueue, this`calls, this`packetsTransmitted
      ensures resultQueue == Some([])
      ensures calls == old(calls) + round
      ensures packetsTransmitted == old(packetsTransmitted) + Delivered(round)
      ensures Partitions(Batches(round), StableSort(PingsOf(old(resultQueue).value)), metadata)
      ensures CutUp(Batches(round), StableSort(PingsOf(old(resultQueue).value)), metadata, cuts)
    {
      var rq := resultQueue.value;
      resultQueue := Some([]);
      var rqPing := StableSort(PingsOf(rq));
      SortSorts(PingsOf(rq));
      round, cuts := SendGrouped(rqPing);
    }
  }

  /** The calls made and the results counted as transmitted. */
  datatype Progress = Progress(calls: seq<Call>, transmitted: nat)

  /** p after one more call. */
  function Sent(p: Progress, tr: TaskResult, ok: bool): Progress {
    Progress(p.calls + [Call(tr, ok)], p.transmitted + (if ok then |tr.resultList| else 0))
  }

  /** Between two turns of the grouping loop that began at `start`. */
  ghost predicate Sending(start: Progress, now: Progress, round: seq<Call>, tr: TaskResult,
                          done: seq<Result>, metadata: Metadata) {
    && Grouped(Batches(round), tr, done, metadata)
    && now == Progress(start.calls + round, start.transmitted + Delivered(round))
  }

  /** The calls of a round once a result is added. */
  function Closed(round: seq<Call>, tr: TaskResult, r: Result, ok: bool): seq<Call> {
    if Flushes(tr, r) then round + [Call(tr, ok)] else round
  }

  lemma {:induction false} SentGrows(start: Progress, now: Progress, round: seq<Call>, tr: TaskResult, ok: bool)
    requires now == Progress(start.calls + round, start.transmitted + Delivered(round))
    ensures var more := round + [Call(tr, ok)];
            Sent(now, tr, ok) == Progress(start.calls + more, start.transmitted + Delivered(more))
  {
    DeliveredSnoc(round, Call(tr, ok));
    Associative(start.calls, round, [Call(tr, ok)]);
  }

  lemma {:induction false} ClosedBatches(round: seq<Call>, tr: TaskResult, r: Result, ok: bool)
    ensures Batches(Closed(round, tr, r, ok)) == if Flushes(tr, r) then Batches(round) + [tr] else Batches(round)
  {
    DeliveredSnoc(round, Call(tr, ok));
  }

  lemma {:induction false} ClosedProgress(start: Progress, now: Progress, round: seq<Call>, tr: TaskResult, r: Result, ok: bool)
    requires now == Progress(start.calls + round, start.transmitted + Delivered(round))
    ensures var more := Closed(round, tr, r, ok);
            (if Flushes(tr, r) then Sent(now, tr, ok) else now)
            == Progress(start.calls + more, start.transmitted + Delivered(more))
  {
    SentGrows(start, now, round, tr, ok);
  }

  lemma {:induction false} TakeOne(start: Progress, now: Progress, round: seq<Call>, tr: TaskResult,
                                   rs: seq<Result>, i: nat, metadata: Metadata, ok: bool)
    requires i < |rs| && Sorted(rs) && Sending(start, now, round, tr, rs[..i], metadata)
    ensures Sending(start, if Flushes(tr, rs[i]) then Sent(now, tr, ok) else now,
                    Closed(round, tr, rs[i], ok), Grown(tr, rs[i], metadata), rs[..i + 1], metadata)
  {
    Taken(Batches(round), tr, rs, i, metadata);
    ClosedBatches(round, tr, rs[i], ok);
    ClosedProgress(start, now, round, tr, rs[i], ok);
  }

  lemma {:induction false} Taken(sent: seq<TaskResult>, tr: TaskResult, rs: seq<Result>, i: nat, metadata: Metadata)
    requires i < |rs| && Sorted(rs) && Grouped(sent, tr, rs[..i], metadata)
    ensures Grouped(if Flushes(tr, rs[i]) then sent + [tr] else sent, Grown(tr, rs[i], metadata), rs[..i + 1], metadata)
  {
    assert rs[..i + 1] == rs[..i] + [rs[i]];
    GroupedStep(sent, tr, rs[..i], rs[i], metadata);
  }

  lemma {:induction false} LastBatch(start: Progress, now: Progress, round: seq<Call>, tr: TaskResult,
                                     rs: seq<Result>, metadata: Metadata, ok: bool)
    requires Sending(start, now, round, tr, rs, metadata) && tr.resultList != []
    ensures var more := round + [Call(tr, ok)];
            && Sent(now, tr, ok) == Progress(start.calls + more, start.transmitted + Delivered(more))
            && Partitions(Batches(more), rs, metadata)
  {
    SentGrows(start, now, round, tr, ok);
    DeliveredSnoc(round, Call(tr, ok));
  }
}
