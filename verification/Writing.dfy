// The two passes of the encoder in src/schema/verfploeter.rs: `compute_size` stores the size of every
// message in it, and `write_to_with_cached_sizes` trusts the stored sizes for the length prefixes.
module Writing {
  import opened Common
  import opened Wire
  import opened Schema

  // ----- what the size pass establishes -----

  ghost predicate ExactAddress(a: Address) {
    a.cachedSize == |EncodeAddress(a)|
  }

  ghost predicate ExactOptAddress(o: Option<Address>) {
    o.Some? ==> ExactAddress(o.value)
  }

  ghost predicate ExactPayload(p: PingPayload) {
    && p.cachedSize == |EncodePayload(p)|
    && ExactOptAddress(p.sourceAddress) && ExactOptAddress(p.destinationAddress)
  }

  ghost predicate ExactOptPayload(o: Option<PingPayload>) {
    o.Some? ==> ExactPayload(o.value)
  }

  ghost predicate ExactPingResult(p: PingResult) {
    && p.cachedSize == |EncodePingResult(p)|
    && ExactOptAddress(p.sourceAddress) && ExactOptAddress(p.destinationAddress) && ExactOptPayload(p.payload)
  }

  ghost predicate ExactResult(r: Result) {
    && r.cachedSize == |EncodeResult(r)|
    && (r.ping.Some? ==> ExactPingResult(r.ping.value))
  }

  ghost predicate ExactMetadata(m: Metadata) {
    m.cachedSize == |EncodeMetadata(m)|
  }

  ghost predicate ExactClient(c: Client) {
    && c.cachedSize == |EncodeClient(c)|
    && (c.metadata.Some? ==> ExactMetadata(c.metadata.value))
  }

  ghost predicate ExactOptClient(o: Option<Client>) {
    o.Some? ==> ExactClient(o.value)
  }

  ghost predicate ExactResults(rs: seq<Result>) {
    forall i :: 0 <= i < |rs| ==> ExactResult(rs[i])
  }

  /** Every size stored anywhere in the tree is the length of the encoding of its own message. */
  ghost predicate ExactTaskResult(t: TaskResult) {
    && t.cachedSize == |EncodeTaskResult(t)|
    && ExactOptClient(t.client) && ExactResults(t.resultList)
  }

  // ----- what the writing pass emits, given any stored sizes -----

  function WrittenMessage(number: nat, cachedSize: u32, body: seq<byte>): seq<byte> {
    Tag(number, 2) + VarintBytes(cachedSize) + body
  }

  function WrittenOptAddress(number: nat, o: Option<Address>): seq<byte> {
    if o.None? then [] else WrittenMessage(number, o.value.cachedSize, EncodeAddress(o.value))
  }

  function WrittenPayload(p: PingPayload): seq<byte> {
    FieldsBytes(OptVarint(1, p.taskId)) + FieldsBytes(OptVarint(2, p.transmitTime))
    + WrittenOptAddress(3, p.sourceAddress) + WrittenOptAddress(4, p.destinationAddress)
  }

  function WrittenOptPayload(number: nat, o: Option<PingPayload>): seq<byte> {
    if o.None? then [] else WrittenMessage(number, o.value.cachedSize, WrittenPayload(o.value))
  }

  function WrittenPingResult(p: PingResult): seq<byte> {
    WrittenOptAddress(1, p.sourceAddress) + WrittenOptAddress(2, p.destinationAddress)
    + FieldsBytes(OptVarint(3, p.receiveTime)) + WrittenOptPayload(4, p.payload) + FieldsBytes(OptVarint(5, p.ttl))
  }

  function WrittenResult(r: Result): seq<byte> {
    if r.ping.None? then [] else WrittenMessage(1, r.ping.value.cachedSize, WrittenPingResult(r.ping.value))
  }

  function WrittenOptMetadata(number: nat, o: Option<Metadata>): seq<byte> {
    if o.None? then [] else WrittenMessage(number, o.value.cachedSize, EncodeMetadata(o.value))
  }

  function WrittenClient(c: Client): seq<byte> {
    FieldsBytes(OptVarint(1, c.index)) + WrittenOptMetadata(2, c.metadata)
  }

  function WrittenOptClient(number: nat, o: Option<Client>): seq<byte> {
    if o.None? then [] else WrittenMessage(number, o.value.cachedSize, WrittenClient(o.value))
  }

  function WrittenResults(rs: seq<Result>): seq<byte> {
    if rs == [] then []
    else WrittenResults(rs[..|rs| - 1])
         + WrittenMessage(3, rs[|rs| - 1].cachedSize, WrittenResult(rs[|rs| - 1]))
  }

  function WrittenTaskResult(t: TaskResult): seq<byte> {
    FieldsBytes(OptVarint(1, t.taskId)) + WrittenOptClient(2, t.client) + WrittenResults(t.resultList)
    + FieldsBytes(OptVarint(4, if t.isFinished then 1 else 0))
  }

  // ----- with exact sizes the writing pass emits the encoding -----

  lemma {:induction false} WrittenExactly(number: nat, cachedSize: u32, body: seq<byte>)
    requires cachedSize == |body|
    ensures WrittenMessage(number, cachedSize, body) == FieldsBytes([Len(number, body)])
  {
    SingleField(Len(number, body));
    assert FieldBytes(Len(number, body)) == Tag(number, 2) + (VarintBytes(|body|) + body);
  }

  lemma {:induction false} FieldsBytesFour(f1: seq<Field>, f2: seq<Field>, f3: seq<Field>, f4: seq<Field>)
    ensures FieldsBytes(f1 + f2 + f3 + f4) == FieldsBytes(f1) + FieldsBytes(f2) + FieldsBytes(f3) + FieldsBytes(f4)
  {
    FieldsBytesConcat(f1, f2);
    FieldsBytesConcat(f1 + f2, f3);
    FieldsBytesConcat(f1 + f2 + f3, f4);
  }

  lemma {:induction false} OptAddressWritten(number: nat, o: Option<Address>)
    requires ExactOptAddress(o)
    ensures WrittenOptAddress(number, o) == FieldsBytes(OptAddress(number, o))
  {
    if o.Some? { WrittenExactly(number, o.value.cachedSize, EncodeAddress(o.value)); }
  }

  lemma {:induction false} PayloadWritten(p: PingPayload)
    requires ExactPayload(p)
    ensures WrittenPayload(p) == EncodePayload(p)
  {
    OptAddressWritten(3, p.sourceAddress);
    OptAddressWritten(4, p.destinationAddress);
    FieldsBytesFour(OptVarint(1, p.taskId), OptVarint(2, p.transmitTime),
                    OptAddress(3, p.sourceAddress), OptAddress(4, p.destinationAddress));
  }

  lemma {:induction false} OptPayloadWritten(number: nat, o: Option<PingPayload>)
    requires ExactOptPayload(o)
    ensures WrittenOptPayload(number, o) == FieldsBytes(OptPayload(number, o))
  {
    if o.Some? {
      PayloadWritten(o.value);
      WrittenExactly(number, o.value.cachedSize, EncodePayload(o.value));
    }
  }

  lemma {:induction false} PingResultBytes(p: PingResult)
    ensures EncodePingResult(p)
         == FieldsBytes(OptAddress(1, p.sourceAddress)) + FieldsBytes(OptAddress(2, p.destinationAddress))
            + FieldsBytes(OptVarint(3, p.receiveTime)) + FieldsBytes(OptPayload(4, p.payload))
            + FieldsBytes(OptVarint(5, p.ttl))
  {
    FieldsBytesFour(OptAddress(1, p.sourceAddress), OptAddress(2, p.destinationAddress),
                    OptVarint(3, p.receiveTime), OptPayload(4, p.payload));
    FieldsBytesConcat(OptAddress(1, p.sourceAddress) + OptAddress(2, p.destinationAddress)
                      + OptVarint(3, p.receiveTime) + OptPayload(4, p.payload), OptVarint(5, p.ttl));
  }

  lemma {:induction false} PingResultWritten(p: PingResult)
    requires ExactPingResult(p)
    ensures WrittenPingResult(p) == EncodePingResult(p)
  {
    OptAddressWritten(1, p.sourceAddress);
    OptAddressWritten(2, p.destinationAddress);
    OptPayloadWritten(4, p.payload);
    PingResultBytes(p);
  }

  lemma {:induction false} ResultWritten(r: Result)
    requires ExactResult(r)
    ensures WrittenResult(r) == EncodeResult(r)
  {
    if r.ping.Some? {
      PingResultWritten(r.ping.value);
      WrittenExactly(1, r.ping.value.cachedSize, EncodePingResult(r.ping.value));
    }
  }

  lemma {:induction false} ClientWritten(c: Client)
    requires ExactClient(c)
    ensures WrittenClient(c) == EncodeClient(c)
  {
    FieldsBytesConcat(OptVarint(1, c.index), OptMetadata(2, c.metadata));
    if c.metadata.Some? {
      WrittenExactly(2, c.metadata.value.cachedSize, EncodeMetadata(c.metadata.value));
    }
  }

  lemma {:induction false} OptClientWritten(number: nat, o: Option<Client>)
    requires ExactOptClient(o)
    ensures WrittenOptClient(number, o) == FieldsBytes(OptClient(number, o))
  {
    if o.Some? {
      ClientWritten(o.value);
      WrittenExactly(number, o.value.cachedSize, EncodeClient(o.value));
    }
  }

  lemma {:induction false} RepeatedSnoc(number: nat, rs: seq<Result>, r: Result)
    ensures RepeatedResults(number, rs + [r]) == RepeatedResults(number, rs) + [Len(number, EncodeResult(r))]
  {
    var fs := RepeatedResults(number, rs + [r]);
    assert forall i :: 0 <= i < |fs| ==> fs[i] == (RepeatedResults(number, rs) + [Len(number, EncodeResult(r))])[i];
  }

  lemma {:induction false} ResultsWritten(rs: seq<Result>)
    requires ExactResults(rs)
    ensures WrittenResults(rs) == FieldsBytes(RepeatedResults(3, rs))
    decreases |rs|
  {
    if rs != [] {
      var front, last := rs[..|rs| - 1], rs[|rs| - 1];
      assert rs == front + [last];
      ResultsWritten(front);
      ResultWritten(last);
      WrittenExactly(3, last.cachedSize, EncodeResult(last));
      RepeatedSnoc(3, front, last);
      FieldsBytesConcat(RepeatedResults(3, front), [Len(3, EncodeResult(last))]);
    }
  }

  /** The writing pass after an exact size pass emits the encoding, so exactly the computed size. */
  lemma {:induction false} TaskResultWritten(t: TaskResult)
    requires ExactTaskResult(t)
    ensures WrittenTaskResult(t) == EncodeTaskResult(t)
    ensures |WrittenTaskResult(t)| == t.cachedSize
  {
    OptClientWritten(2, t.client);
    ResultsWritten(t.resultList);
    FieldsBytesFour(OptVarint(1, t.taskId), OptClient(2, t.client), RepeatedResults(3, t.resultList),
                    OptVarint(4, if t.isFinished then 1 else 0));
  }

  // ----- encodings do not depend on stored sizes -----

  lemma {:induction false} SameAddressBytes(a: Address, b: Address)
    requires BareAddress(a) == BareAddress(b)
    ensures EncodeAddress(a) == EncodeAddress(b)
  {
    assert a.value == b.value by {
      assert BareAddress(a).value == a.value && BareAddress(b).value == b.value;
    }
  }

  lemma {:induction false} SameOptAddress(number: nat, o: Option<Address>, q: Option<Address>)
    requires BareOptAddress(o) == BareOptAddress(q)
    ensures OptAddress(number, o) == OptAddress(number, q)
  {
    if o.Some? { SameAddressBytes(o.value, q.value); }
  }

  lemma {:induction false} SamePayloadBytes(p: PingPayload, q: PingPayload)
    requires BarePayload(p) == BarePayload(q)
    ensures EncodePayload(p) == EncodePayload(q)
  {
    SameOptAddress(3, p.sourceAddress, q.sourceAddress);
    SameOptAddress(4, p.destinationAddress, q.destinationAddress);
  }

  lemma {:induction false} SamePingResultBytes(p: PingResult, q: PingResult)
    requires BarePingResult(p) == BarePingResult(q)
    ensures EncodePingResult(p) == EncodePingResult(q)
  {
    SameOptAddress(1, p.sourceAddress, q.sourceAddress);
    SameOptAddress(2, p.destinationAddress, q.destinationAddress);
    if p.payload.Some? { SamePayloadBytes(p.payload.value, q.payload.value); }
    assert OptPayload(4, p.payload) == OptPayload(4, q.payload);
  }

  lemma {:induction false} SameResultBytes(r: Result, s: Result)
    requires BareResult(r) == BareResult(s)
    ensures EncodeResult(r) == EncodeResult(s)
  {
    if r.ping.Some? { SamePingResultBytes(r.ping.value, s.ping.value); }
  }

  lemma {:induction false} SameClientBytes(c: Client, d: Client)
    requires BareClient(c) == BareClient(d)
    ensures EncodeClient(c) == EncodeClient(d)
  {
    assert OptMetadata(2, c.metadata) == OptMetadata(2, d.metadata) by {
      if c.metadata.Some? {
        assert BareMetadata(c.metadata.value) == BareMetadata(d.metadata.value);
        assert MetadataFields(c.metadata.value) == MetadataFields(d.metadata.value);
      }
    }
  }

  lemma {:induction false} SameTaskResultBytes(t: TaskResult, u: TaskResult)
    requires BareTaskResult(t) == BareTaskResult(u)
    ensures EncodeTaskResult(t) == EncodeTaskResult(u)
  {
    assert OptClient(2, t.client) == OptClient(2, u.client) by {
      if t.client.Some? { SameClientBytes(t.client.value, u.client.value); }
    }
    assert RepeatedResults(3, t.resultList) == RepeatedResults(3, u.resultList) by {
      assert |BareResults(t.resultList)| == |BareResults(u.resultList)|;
      forall i | 0 <= i < |t.resultList|
        ensures RepeatedResults(3, t.resultList)[i] == RepeatedResults(3, u.resultList)[i]
      {
        assert BareResults(t.resultList)[i] == BareResults(u.resultList)[i];
        SameResultBytes(t.resultList[i], u.resultList[i]);
      }
    }
  }
}
