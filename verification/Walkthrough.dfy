// One probe taken all the way: runs of the three state machines that meet what the end-to-end theorem asks.
module Walkthrough {
  import opened Common
  import opened Schema
  import opened Packet
  import opened Signing
  import opened Batching
  import opened Inbound
  import opened RoundTrip
  import opened Outbound
  import opened EndToEnd
  import OutboundRun
  import InboundRun
  import PubSub
  import PubSubRun

  // ----- the client that probes -----

  lemma {:induction false} OutboundSnoc(mac: Mac, es: seq<OutboundRun.Step>, e: OutboundRun.Step)
    requires OutboundRun.Run(mac, es).Some? && OutboundRun.Enabled(OutboundRun.Run(mac, es).value, e)
    ensures OutboundRun.Run(mac, es + [e]) == Some(OutboundRun.Next(mac, OutboundRun.Run(mac, es).value, e))
  {
    assert (es + [e])[..|es|] == es;
  }

  /** A task is received and its first destination probed. */
  lemma {:induction false} FirstProbe(mac: Mac, task: Task, time: u64) returns (os: seq<OutboundRun.Step>)
    requires Destinations(task) != []
    ensures OutboundRun.Run(mac, os).Some?
    ensures var o := OutboundRun.Run(mac, os).value;
            && |o.threads| == 1 && o.threads[0].task == task
            && o.log == [OutboundRun.Entry(0, OutboundRun.Tried(mac, task, 0, time, true))]
  {
    os := [];
    OutboundSnoc(mac, os, OutboundRun.Spawn(task));
    os := os + [OutboundRun.Spawn(task)];
    OutboundSnoc(mac, os, OutboundRun.Lock(0));
    os := os + [OutboundRun.Lock(0)];
    OutboundSnoc(mac, os, OutboundRun.Attempting(0, time, true));
    os := os + [OutboundRun.Attempting(0, time, true)];
  }

  // ----- the client that collects -----

  lemma {:induction false} InboundSnoc(mac: Mac, metadata: Metadata, es: seq<InboundRun.Step>, e: InboundRun.Step)
    requires InboundRun.Run(mac, metadata, es).Some? && InboundRun.Enabled(InboundRun.Run(mac, metadata, es).value, e)
    ensures InboundRun.Run(mac, metadata, es + [e])
         == Some(InboundRun.Next(mac, metadata, InboundRun.Run(mac, metadata, es).value, e))
  {
    assert (es + [e])[..|es|] == es;
  }

  /** A packet arrives and goes into the channel. */
  lemma {:induction false} Channelled(mac: Mac, metadata: Metadata, datagram: seq<byte>, a: Arrival)
    returns (es: seq<InboundRun.Step>)
    requires datagram != [] && Truncated(datagram) == datagram && IPv4Of(datagram) == Some(a.packet)
    ensures InboundRun.Run(mac, metadata, es).Some?
    ensures var s := InboundRun.Run(mac, metadata, es).value;
            && s.arrived == [a] && s.queue == Some([]) && s.receiver.Reading? && s.channel == [a]
            && s.processor.Waiting? && s.transmitter.Asleep?
  {
    es := [];
    InboundSnoc(mac, metadata, es, InboundRun.Receive(datagram, a.time));
    es := es + [InboundRun.Receive(datagram, a.time)];
    InboundSnoc(mac, metadata, es, InboundRun.Enqueue);
    es := es + [InboundRun.Enqueue];
  }

  /** Its result is queued. */
  lemma {:induction false} Queued(mac: Mac, metadata: Metadata, front: seq<InboundRun.Step>, a: Arrival, r: Result)
    returns (es: seq<InboundRun.Step>)
    requires InboundRun.Run(mac, metadata, front).Some? && Attribute(mac, a) == Some(r)
    requires var s := InboundRun.Run(mac, metadata, front).value;
             && s.queue == Some([]) && s.receiver.Reading? && s.channel == [a]
             && s.processor.Waiting? && s.transmitter.Asleep?
    ensures InboundRun.Run(mac, metadata, es).Some?
    ensures var s := InboundRun.Run(mac, metadata, es).value;
            && s.arrived == InboundRun.Run(mac, metadata, front).value.arrived
            && s.queue == Some([r]) && s.receiver.Reading? && s.channel == []
            && s.processor.Waiting? && s.transmitter.Asleep?
  {
    var start := InboundRun.Run(mac, metadata, front).value;
    assert start.channel[0] == a && start.channel[1..] == [] && [] + [r] == [r];
    InboundRun.ProcessIsThreeSteps(mac, metadata, start);
    es := front;
    InboundSnoc(mac, metadata, es, InboundRun.Take);
    es := es + [InboundRun.Take];
    InboundSnoc(mac, metadata, es, InboundRun.Classify);
    es := es + [InboundRun.Classify];
    InboundSnoc(mac, metadata, es, InboundRun.Push);
    es := es + [InboundRun.Push];
  }

  /** The transmitter takes the queue and sends it. */
  lemma {:induction false} Transmitted(mac: Mac, metadata: Metadata, es: seq<InboundRun.Step>, r: Result)
    returns (all: seq<InboundRun.Step>)
    requires InboundRun.Run(mac, metadata, es).Some? && r.ping.Some?
    requires var s := InboundRun.Run(mac, metadata, es).value;
             && s.queue == Some([r]) && s.receiver.Reading? && s.channel == []
             && s.processor.Waiting? && s.transmitter.Asleep?
    ensures InboundRun.Run(mac, metadata, all).Some? && Quiet(InboundRun.Run(mac, metadata, all).value)
    ensures InboundRun.Run(mac, metadata, all).value.arrived == InboundRun.Run(mac, metadata, es).value.arrived
  {
    assert StableSort(PingsOf([r])) == [r] by {
      AllPings([r]);
      assert [r][1..] == [];
    }
    all := es;
    InboundSnoc(mac, metadata, all, InboundRun.Swap);
    all := all + [InboundRun.Swap];
    InboundSnoc(mac, metadata, all, InboundRun.Group(true));
    all := all + [InboundRun.Group(true)];
    InboundSnoc(mac, metadata, all, InboundRun.Finish(true));
    all := all + [InboundRun.Finish(true)];
  }

  /** Every echo of the first probe of a task can come back, and the inbound threads come to rest after it: the
      premises of `ProbeReachesItsSubscribers` are met for every such task, header and reply. */
  lemma {:induction false} EchoCanComeBack(mac: Mac, metadata: Metadata, task: Task, time: u64,
                                           h: IPv4Header, reply: ICMP4Packet, when: u64)
    returns (os: seq<OutboundRun.Step>, es: seq<InboundRun.Step>)
    requires Destinations(task) != [] && V4Probe(task, Destinations(task)[0])
    requires h.Valid() && h.protocol == 1
    requires reply.body == SignedBytes(mac, SECRET, Body(task, Destinations(task)[0], time))
    ensures ComesBack(mac, metadata, os, 0, task, h, reply, when, es)
    ensures Quiet(InboundRun.Run(mac, metadata, es).value)
  {
    var d := Destinations(task)[0];
    os := FirstProbe(mac, task, time);
    ProbeBody(mac, task, d, time);
    ProbeFits(mac, task, d, time, h, reply);
    IPv4CarriesIcmp(h, reply);
    EchoIsAttributed(mac, task, d, time, h, reply, when);
    var datagram := h.Bytes() + IcmpBytes(reply);
    var a := Arrival(when, IPv4Of(datagram).value);
    es := Channelled(mac, metadata, datagram, a);
    es := Queued(mac, metadata, es, a, Attribute(mac, a).value);
    es := Transmitted(mac, metadata, es, Attribute(mac, a).value);
  }

  // ----- the server -----

  lemma {:induction false} ServerSnoc(ss: seq<PubSubRun.Step>, e: PubSubRun.Step)
    requires PubSubRun.Run(ss).Some? && PubSubRun.Enabled(PubSubRun.Run(ss).value, e)
    ensures PubSubRun.Run(ss + [e]) == Some(PubSubRun.Next(PubSubRun.Run(ss).value, e))
  {
    assert (ss + [e])[..|ss|] == ss;
  }

  /** A reader subscribes to the task of a batch, and a handler takes the batch up and returns: then the reader
      has received it. */
  lemma {:induction false} BatchCanBeRead(tr: TaskResult) returns (ss: seq<PubSubRun.Step>)
    requires |EncodeTaskResult(tr)| < TWO32
    ensures Handled(ss, 0, tr) && Watching(ss, 0)
    ensures var s := PubSubRun.Run(ss).value;
            PubSubRun.Count(PubSubRun.Received(s.subs[0]), PubSubRun.CopyOf(s, 0)) == 1
  {
    TaskResultRoundTrip(tr);
    var t := BareTaskResult(tr);
    ss := [];
    ServerSnoc(ss, PubSubRun.Subscribe(t.taskId));
    ss := ss + [PubSubRun.Subscribe(t.taskId)];
    ServerSnoc(ss, PubSubRun.Arrive(t));
    ss := ss + [PubSubRun.Arrive(t)];
    ServerSnoc(ss, PubSubRun.Snapshot(0));
    ss := ss + [PubSubRun.Snapshot(0)];
    ServerSnoc(ss, PubSubRun.Send(0));
    ss := ss + [PubSubRun.Send(0)];
    ServerSnoc(ss, PubSubRun.Return(0));
    ss := ss + [PubSubRun.Return(0)];
  }
}
