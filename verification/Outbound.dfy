// The outbound side of a client (src/client/handlers/ping_outbound.rs): the loop that probes the
// destinations of a task.
module Outbound {
  import opened Common
  import opened Checksum
  import opened Schema
  import opened Packet
  import opened Signing
  import opened RoundTrip
  import opened Addresses

  /** A probe handed to the socket: for which address, when, where to, what, and whether that succeeded. */
  datatype Attempt = Attempt(destination: Address, time: u64, to: u32, packet: seq<byte>, ok: bool)

  function PingOf(task: Task): Ping {
    if task.ping.Some? then task.ping.value else Ping(None, [])
  }

  function Destinations(task: Task): seq<Address> {
    PingOf(task).destinationAddresses
  }

  /** The source address of a task; an absent one reads as the default message. */
  function SourceOf(task: Task): Address {
    if PingOf(task).sourceAddress.Some? then PingOf(task).sourceAddress.value else NEW_ADDRESS
  }

  /** What a probe says: the task, its source, the probed address and the time. */
  function Body(task: Task, destination: Address, time: u64): PingPayload {
    PingPayload(task.taskId, time, Some(SourceOf(task)), Some(destination), 0)
  }

  function Probe(mac: Mac, task: Task, destination: Address, time: u64): seq<byte> {
    EchoRequestBytes(1, 2, SignedBytes(mac, SECRET, Body(task, destination, time)))
  }

  /** A payload names a task, its source address, a probed address and a time. */
  ghost predicate Describes(p: PingPayload, task: Task, destination: Address, time: u64) {
    && p.taskId == task.taskId && p.transmitTime == time
    && p.destinationAddress.Some? && p.destinationAddress.value.value == destination.value
    && p.sourceAddress.Some?
    && (if task.ping.Some? && task.ping.value.sourceAddress.Some?
        then p.sourceAddress.value.value == task.ping.value.sourceAddress.value.value
        else p.sourceAddress.value.value == Unset)
  }

  /** A packet is an echo request, identifier 1 and sequence number 2, with a signed payload that describes
      the probe. */
  ghost predicate Says(mac: Mac, packet: seq<byte>, task: Task, destination: Address, time: u64) {
    && |packet| >= 8 && packet[0] == 8 && packet[1] == 0
    && Base256(packet[4..6]) == 1 && Base256(packet[6..8]) == 2
    && exists value :: SignedAs(mac, packet[8..], value) && Describes(DecodePayload(value).value, task, destination, time)
  }

  ghost predicate SignedAs(mac: Mac, body: seq<byte>, value: seq<byte>) {
    body == value + mac(SECRET, value) && DecodePayload(value).Some?
  }

  lemma {:induction false} BodyDescribes(task: Task, destination: Address, time: u64)
    ensures Describes(BarePayload(Body(task, destination, time)), task, destination, time)
  {
  }

  lemma {:induction false} ProbeSays(mac: Mac, task: Task, destination: Address, time: u64)
    requires |EncodePayload(Body(task, destination, time))| < TWO32
    ensures Says(mac, Probe(mac, task, destination, time), task, destination, time)
  {
    var p := Body(task, destination, time);
    var value := EncodePayload(p);
    var packet := Probe(mac, task, destination, time);
    EchoBytesLayout(1, 2, SignedBytes(mac, SECRET, p));
    assert SignedAs(mac, packet[8..], value) && DecodePayload(value).value == BarePayload(p) by { PayloadRoundTrip(p); }
    BodyDescribes(task, destination, time);
  }

  /** The socket address of a probe: the bits of a v4 destination, and 0.0.0.0 for any other. */
  ghost predicate Aimed(a: Attempt) {
    a.to == if a.destination.value.V4? then a.destination.value.v4 else 0
  }

  /** An attempt to probe one destination of a task. The packet is what it should be unless its payload is
      too large for 32-bit sizes. */
  ghost predicate Probes(mac: Mac, task: Task, destination: Address, a: Attempt) {
    && a.destination == destination
    && a.to == GetV4(destination)
    && (|EncodePayload(Body(task, destination, a.time))| < TWO32 ==>
          a.packet == Probe(mac, task, destination, a.time))
  }

  ghost predicate AllProbes(mac: Mac, task: Task, ips: seq<Address>, attempts: seq<Attempt>) {
    |attempts| <= |ips| && forall k :: 0 <= k < |attempts| ==> Probes(mac, task, ips[k], attempts[k])
  }

  lemma {:induction false} AllProbesSnoc(mac: Mac, task: Task, ips: seq<Address>, attempts: seq<Attempt>, a: Attempt)
    requires AllProbes(mac, task, ips, attempts) && |attempts| < |ips| && Probes(mac, task, ips[|attempts|], a)
    ensures AllProbes(mac, task, ips, attempts + [a])
  {
  }

  function Successes(attempts: seq<Attempt>): nat {
    if attempts == [] then 0
    else Successes(attempts[..|attempts| - 1]) + (if attempts[|attempts| - 1].ok then 1 else 0)
  }

  lemma {:induction false} SuccessesSnoc(attempts: seq<Attempt>, a: Attempt)
    ensures Successes(attempts + [a]) == Successes(attempts) + (if a.ok then 1 else 0)
  {
    assert (attempts + [a])[..|attempts|] == attempts;
  }

  class PingOutbound {
    const mac: Mac
    var log: seq<Attempt>
    var transmittedOk: nat
    var transmittedError: nat

    constructor (mac: Mac)
      ensures this.mac == mac && log == [] && transmittedOk == 0 && transmittedError == 0
    {
      this.mac := mac;
      log, transmittedOk, transmittedError := [], 0, 0;
    }

    /** Builds the probe of one destination. */
    method BuildProbe(task: Task, ip: Address, time: u64) returns (icmp: seq<byte>)
      ensures ChecksumOf(icmp) == 0
      ensures |EncodePayload(Body(task, ip, time))| < TWO32 ==>
                icmp == Probe(mac, task, ip, time) && Says(mac, icmp, task, ip, time)
    {
      var payload := NEW_PAYLOAD;
      payload := payload.(sourceAddress := Some(SourceOf(task)));
      payload := payload.(destinationAddress := Some(ip));
      payload := payload.(taskId := task.taskId);
      payload := payload.(transmitTime := time);
      assert payload == Body(task, ip, time);
      var bytes := ToSignedBytes(mac, SECRET, payload);
      icmp := EchoRequest(1, 2, bytes);
      if |EncodePayload(Body(task, ip, time))| < TWO32 { ProbeSays(mac, task, ip, time); }
    }

    /** One turn of the loop. A failure is counted and does not end it. */
    method ProbeOne(task: Task, ip: Address, time: u64, ok: bool) returns (ghost a: Attempt)
      modifies this`log, this`transmittedOk, this`transmittedError
      ensures Probes(mac, task, ip, a) && a.time == time && a.ok == ok && ChecksumOf(a.packet) == 0
      ensures a.destination == ip && Aimed(a)
      ensures |EncodePayload(Body(task, ip, time))| < TWO32 ==> Says(mac, a.packet, task, ip, time)
      ensures log == old(log) + [a]
      ensures transmittedOk == old(transmittedOk) + (if ok then 1 else 0)
      ensures transmittedError == old(transmittedError) + (if ok then 0 else 1)
    {
      var icmp := BuildProbe(task, ip, time);
      var attempt := Attempt(ip, time, GetV4(ip), icmp, ok);
      log := log + [attempt];
      if ok {
        transmittedOk := transmittedOk + 1;
      } else {
        transmittedError := transmittedError + 1;
      }
      a := attempt;
    }

    /** Probes every destination once, in order. */
    method PerformPing(task: Task) returns (ghost attempts: seq<Attempt>)
      modifies this`log, this`transmittedOk, this`transmittedError
      ensures log == old(log) + attempts
      ensures task.ping.None? ==> attempts == []
      ensures task.ping.Some? ==>
                && |attempts| == |task.ping.value.destinationAddresses|
                && forall k :: 0 <= k < |attempts| ==>
                     && attempts[k].destination == task.ping.value.destinationAddresses[k]
                     && Aimed(attempts[k])
                     && (|EncodePayload(Body(task, attempts[k].destination, attempts[k].time))| < TWO32 ==>
                          Says(mac, attempts[k].packet, task, attempts[k].destination, attempts[k].time))
      ensures transmittedOk == old(transmittedOk) + Successes(attempts)
      ensures transmittedError == old(transmittedError) + |attempts| - Successes(attempts)
    {
      attempts := [];
      var ips := Destinations(task);
      for i := 0 to |ips|
        invariant log == old(log) + attempts && |attempts| == i
        invariant AllProbes(mac, task, ips, attempts)
        invariant transmittedOk == old(transmittedOk) + Successes(attempts)
        invariant transmittedError == old(transmittedError) + |attempts| - Successes(attempts)
      {
        var time: u64 := *;
        var ok: bool := *;
        ghost var a := ProbeOne(task, ips[i], time, ok);
        SuccessesSnoc(attempts, a);
        AllProbesSnoc(mac, task, ips, attempts, a);
        attempts := attempts + [a];
      }
      forall k | 0 <= k < |attempts| && |EncodePayload(Body(task, attempts[k].destination, attempts[k].time))| < TWO32
        ensures Says(mac, attempts[k].packet, task, attempts[k].destination, attempts[k].time)
      {
        ProbeSays(mac, task, attempts[k].destination, attempts[k].time);
      }
    }
  }
}
