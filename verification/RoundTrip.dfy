// Decoding undoes encoding, for every message of the schema.
module RoundTrip {
  import opened Common
  import opened Wire
  import opened Schema

  ghost predicate Plain(fs: seq<Field>) {
    forall i :: 0 <= i < |fs| ==> 1 <= fs[i].number < 0x2000_0000 && (fs[i].Varint? || fs[i].Len?)
  }

  /** Records inside an encoding of less than 4 GiB are themselves shorter than that. */
  lemma {:induction false} FieldsFit(fs: seq<Field>)
    requires Plain(fs)
    ensures forall i :: 0 <= i < |fs| && fs[i].Len? ==> |fs[i].payload| < |FieldsBytes(fs)|
    ensures |FieldsBytes(fs)| < TWO32 ==> AllValid(fs)
    decreases |fs|
  {
    if fs != [] {
      FieldsFit(fs[1..]);
      assert forall i :: 0 < i < |fs| ==> fs[i] == fs[1..][i - 1];
    }
  }

  /** Decoding an encoding of less than 4 GiB means applying its fields. */
  lemma {:induction false} DecodeFields<M>(step: (M, Field) -> Option<M>, m: M, fs: seq<Field>)
    requires Plain(fs) && |FieldsBytes(fs)| < TWO32
    ensures Merge(step, m, FieldsBytes(fs)) == Apply(step, m, fs)
  {
    FieldsFit(fs);
    MergeEncoding(step, m, fs);
  }

  /** A group of at most one field. */
  lemma {:induction false} ApplyOne<M>(step: (M, Field) -> Option<M>, m: M, fs: seq<Field>, m': M)
    requires |fs| <= 1
    requires if fs == [] then m' == m else step(m, fs[0]) == Some(m')
    ensures Apply(step, m, fs) == Some(m')
  {
    if fs != [] {
      assert fs[1..] == [];
      assert Apply(step, m', fs[1..]) == Some(m');
    }
  }

  /** Applying one group of fields after another. */
  lemma {:induction false} ApplyThen<M>(step: (M, Field) -> Option<M>, m: M, fs: seq<Field>, m': M, gs: seq<Field>, m'': M)
    requires Apply(step, m, fs) == Some(m') && Apply(step, m', gs) == Some(m'')
    ensures Apply(step, m, fs + gs) == Some(m'')
  {
    ApplyConcat(step, m, fs, gs);
  }

  lemma {:induction false} ApplyFour<M>(step: (M, Field) -> Option<M>, m0: M, f1: seq<Field>, m1: M, f2: seq<Field>, m2: M,
                     f3: seq<Field>, m3: M, f4: seq<Field>, m4: M)
    requires Apply(step, m0, f1) == Some(m1) && Apply(step, m1, f2) == Some(m2)
    requires Apply(step, m2, f3) == Some(m3) && Apply(step, m3, f4) == Some(m4)
    ensures Apply(step, m0, f1 + f2 + f3 + f4) == Some(m4)
  {
    ApplyThen(step, m0, f1, m1, f2, m2);
    ApplyThen(step, m0, f1 + f2, m2, f3, m3);
    ApplyThen(step, m0, f1 + f2 + f3, m3, f4, m4);
  }

  lemma {:induction false} AddressRoundTrip(a: Address)
    requires |EncodeAddress(a)| < TWO32
    ensures DecodeAddress(EncodeAddress(a)) == Some(BareAddress(a))
    ensures EqualAddress(DecodeAddress(EncodeAddress(a)).value, a)
  {
    var fs := AddressFields(a);
    assert Apply(AddressStep, NEW_ADDRESS, fs) == Some(BareAddress(a)) by {
      if a.value.V4? { Low32Fits(a.value.v4); }
      ApplyOne(AddressStep, NEW_ADDRESS, fs, BareAddress(a));
    }
    DecodeFields(AddressStep, NEW_ADDRESS, fs);
  }

  /** An address inside an encoding of less than 4 GiB decodes. */
  lemma {:induction false} AddressInside(f: Field, a: Address, fs: seq<Field>)
    requires Plain(fs) && |FieldsBytes(fs)| < TWO32
    requires f.Len? && f.payload == EncodeAddress(a) && f in fs
    ensures DecodeAddress(f.payload) == Some(BareAddress(a))
  {
    FieldsFit(fs);
    AddressRoundTrip(a);
  }

  ghost predicate OptAddressDecodes(o: Option<Address>) {
    o.Some? ==> DecodeAddress(EncodeAddress(o.value)) == Some(BareAddress(o.value))
  }

  lemma {:induction false} OptAddressInside(number: nat, o: Option<Address>, fs: seq<Field>)
    requires Plain(fs) && |FieldsBytes(fs)| < TWO32
    requires o.Some? ==> OptAddress(number, o)[0] in fs
    ensures OptAddressDecodes(o)
  {
    if o.Some? { AddressInside(OptAddress(number, o)[0], o.value, fs); }
  }

  lemma {:induction false} PayloadApplied(p: PingPayload)
    requires OptAddressDecodes(p.sourceAddress) && OptAddressDecodes(p.destinationAddress)
    ensures Apply(PayloadStep, NEW_PAYLOAD, PayloadFields(p)) == Some(BarePayload(p))
  {
    var m1 := NEW_PAYLOAD.(taskId := p.taskId);
    var m2 := m1.(transmitTime := p.transmitTime);
    var m3 := m2.(sourceAddress := BareOptAddress(p.sourceAddress));
    var m4 := m3.(destinationAddress := BareOptAddress(p.destinationAddress));
    assert Apply(PayloadStep, NEW_PAYLOAD, OptVarint(1, p.taskId)) == Some(m1) by {
      Low32Fits(p.taskId);
      ApplyOne(PayloadStep, NEW_PAYLOAD, OptVarint(1, p.taskId), m1);
    }
    assert Apply(PayloadStep, m1, OptVarint(2, p.transmitTime)) == Some(m2) by {
      ApplyOne(PayloadStep, m1, OptVarint(2, p.transmitTime), m2);
    }
    assert Apply(PayloadStep, m2, OptAddress(3, p.sourceAddress)) == Some(m3) by {
      ApplyOne(PayloadStep, m2, OptAddress(3, p.sourceAddress), m3);
    }
    assert Apply(PayloadStep, m3, OptAddress(4, p.destinationAddress)) == Some(m4) by {
      ApplyOne(PayloadStep, m3, OptAddress(4, p.destinationAddress), m4);
    }
    ApplyFour(PayloadStep, NEW_PAYLOAD, OptVarint(1, p.taskId), m1, OptVarint(2, p.transmitTime), m2,
              OptAddress(3, p.sourceAddress), m3, OptAddress(4, p.destinationAddress), m4);
  }

  lemma {:induction false} PlainConcat(fs: seq<Field>, gs: seq<Field>)
    requires Plain(fs) && Plain(gs)
    ensures Plain(fs + gs)
    ensures forall f :: f in fs || f in gs ==> f in fs + gs
  {
  }

  lemma {:induction false} PlainFour(f1: seq<Field>, f2: seq<Field>, f3: seq<Field>, f4: seq<Field>)
    requires Plain(f1) && Plain(f2) && Plain(f3) && Plain(f4)
    ensures Plain(f1 + f2 + f3 + f4)
    ensures forall f :: f in f1 || f in f2 || f in f3 || f in f4 ==> f in f1 + f2 + f3 + f4
  {
    PlainConcat(f1, f2);
    PlainConcat(f1 + f2, f3);
    PlainConcat(f1 + f2 + f3, f4);
  }

  lemma {:induction false} PayloadParts(p: PingPayload)
    ensures Plain(PayloadFields(p))
    ensures p.sourceAddress.Some? ==> OptAddress(3, p.sourceAddress)[0] in PayloadFields(p)
    ensures p.destinationAddress.Some? ==> OptAddress(4, p.destinationAddress)[0] in PayloadFields(p)
  {
    PlainFour(OptVarint(1, p.taskId), OptVarint(2, p.transmitTime),
              OptAddress(3, p.sourceAddress), OptAddress(4, p.destinationAddress));
  }

  lemma {:induction false} PayloadRoundTrip(p: PingPayload)
    requires |EncodePayload(p)| < TWO32
    ensures DecodePayload(EncodePayload(p)) == Some(BarePayload(p))
    ensures EqualPayload(DecodePayload(EncodePayload(p)).value, p)
  {
    BarePayloadIsEqual(p);
    PayloadParts(p);
    DecodeFields(PayloadStep, NEW_PAYLOAD, PayloadFields(p));
    OptAddressInside(3, p.sourceAddress, PayloadFields(p));
    OptAddressInside(4, p.destinationAddress, PayloadFields(p));
    PayloadApplied(p);
  }

  ghost predicate OptPayloadDecodes(o: Option<PingPayload>) {
    o.Some? ==> DecodePayload(EncodePayload(o.value)) == Some(BarePayload(o.value))
  }

  lemma {:induction false} OptPayloadInside(number: nat, o: Option<PingPayload>, fs: seq<Field>)
    requires Plain(fs) && |FieldsBytes(fs)| < TWO32
    requires o.Some? ==> OptPayload(number, o)[0] in fs
    ensures OptPayloadDecodes(o)
  {
    if o.Some? {
      FieldsFit(fs);
      PayloadRoundTrip(o.value);
    }
  }

  /** The message after its first three fields. */
  function PingResultHead(p: PingResult): PingResult {
    PingResult(BareOptAddress(p.sourceAddress), BareOptAddress(p.destinationAddress), p.receiveTime, None, 0, 0)
  }

  lemma {:induction false} PingResultHeadApplied(p: PingResult)
    requires OptAddressDecodes(p.sourceAddress) && OptAddressDecodes(p.destinationAddress)
    ensures Apply(PingResultStep, NEW_PING_RESULT,
                  OptAddress(1, p.sourceAddress) + OptAddress(2, p.destinationAddress) + OptVarint(3, p.receiveTime))
         == Some(PingResultHead(p))
  {
    var m1 := NEW_PING_RESULT.(sourceAddress := BareOptAddress(p.sourceAddress));
    var m2 := m1.(destinationAddress := BareOptAddress(p.destinationAddress));
    assert Apply(PingResultStep, NEW_PING_RESULT, OptAddress(1, p.sourceAddress)) == Some(m1) by {
      ApplyOne(PingResultStep, NEW_PING_RESULT, OptAddress(1, p.sourceAddress), m1);
    }
    assert Apply(PingResultStep, m1, OptAddress(2, p.destinationAddress)) == Some(m2) by {
      ApplyOne(PingResultStep, m1, OptAddress(2, p.destinationAddress), m2);
    }
    assert Apply(PingResultStep, m2, OptVarint(3, p.receiveTime)) == Some(PingResultHead(p)) by {
      ApplyOne(PingResultStep, m2, OptVarint(3, p.receiveTime), PingResultHead(p));
    }
    ApplyThen(PingResultStep, NEW_PING_RESULT, OptAddress(1, p.sourceAddress), m1,
              OptAddress(2, p.destinationAddress), m2);
    ApplyThen(PingResultStep, NEW_PING_RESULT, OptAddress(1, p.sourceAddress) + OptAddress(2, p.destinationAddress), m2,
              OptVarint(3, p.receiveTime), PingResultHead(p));
  }

  lemma {:induction false} PingResultTailApplied(p: PingResult)
    requires OptPayloadDecodes(p.payload)
    ensures Apply(PingResultStep, PingResultHead(p), OptPayload(4, p.payload) + OptVarint(5, p.ttl))
         == Some(BarePingResult(p))
  {
    var m4 := PingResultHead(p).(payload := BareOptPayload(p.payload));
    assert Apply(PingResultStep, PingResultHead(p), OptPayload(4, p.payload)) == Some(m4) by {
      ApplyOne(PingResultStep, PingResultHead(p), OptPayload(4, p.payload), m4);
    }
    assert Apply(PingResultStep, m4, OptVarint(5, p.ttl)) == Some(BarePingResult(p)) by {
      Low32Fits(p.ttl);
      ApplyOne(PingResultStep, m4, OptVarint(5, p.ttl), BarePingResult(p));
    }
    ApplyThen(PingResultStep, PingResultHead(p), OptPayload(4, p.payload), m4, OptVarint(5, p.ttl), BarePingResult(p));
  }

  lemma {:induction false} PingResultParts(p: PingResult)
    ensures Plain(PingResultFields(p))
    ensures p.sourceAddress.Some? ==> OptAddress(1, p.sourceAddress)[0] in PingResultFields(p)
    ensures p.destinationAddress.Some? ==> OptAddress(2, p.destinationAddress)[0] in PingResultFields(p)
    ensures p.payload.Some? ==> OptPayload(4, p.payload)[0] in PingResultFields(p)
  {
    PlainFour(OptAddress(1, p.sourceAddress), OptAddress(2, p.destinationAddress),
              OptVarint(3, p.receiveTime), OptPayload(4, p.payload));
    PlainConcat(OptAddress(1, p.sourceAddress) + OptAddress(2, p.destinationAddress)
                + OptVarint(3, p.receiveTime) + OptPayload(4, p.payload), OptVarint(5, p.ttl));
  }

  lemma {:induction false} PingResultRoundTrip(p: PingResult)
    requires |EncodePingResult(p)| < TWO32
    ensures DecodePingResult(EncodePingResult(p)) == Some(BarePingResult(p))
  {
    PingResultParts(p);
    assert Apply(PingResultStep, NEW_PING_RESULT, PingResultFields(p)) == Some(BarePingResult(p)) by {
      Associative(OptAddress(1, p.sourceAddress) + OptAddress(2, p.destinationAddress) + OptVarint(3, p.receiveTime),
              OptPayload(4, p.payload), OptVarint(5, p.ttl));
      OptAddressInside(1, p.sourceAddress, PingResultFields(p));
      OptAddressInside(2, p.destinationAddress, PingResultFields(p));
      OptPayloadInside(4, p.payload, PingResultFields(p));
      PingResultHeadApplied(p);
      PingResultTailApplied(p);
      ApplyThen(PingResultStep, NEW_PING_RESULT,
                OptAddress(1, p.sourceAddress) + OptAddress(2, p.destinationAddress) + OptVarint(3, p.receiveTime),
                PingResultHead(p), OptPayload(4, p.payload) + OptVarint(5, p.ttl), BarePingResult(p));
    }
    DecodeFields(PingResultStep, NEW_PING_RESULT, PingResultFields(p));
  }

  lemma {:induction false} ResultRoundTrip(r: Result)
    requires |EncodeResult(r)| < TWO32
    ensures DecodeResult(EncodeResult(r)) == Some(BareResult(r))
    ensures EqualResult(DecodeResult(EncodeResult(r)).value, r)
  {
    BareResultIsEqual(r);
    DecodeFields(ResultStep, NEW_RESULT, ResultFields(r));
    if r.ping.Some? {
      assert DecodePingResult(EncodePingResult(r.ping.value)) == Some(BarePingResult(r.ping.value)) by {
        FieldsFit(ResultFields(r));
        PingResultRoundTrip(r.ping.value);
      }
    }
    ApplyOne(ResultStep, NEW_RESULT, ResultFields(r), BareResult(r));
  }

  lemma {:induction false} MetadataRoundTrip(m: Metadata)
    requires |EncodeMetadata(m)| < TWO32
    ensures DecodeMetadata(EncodeMetadata(m)) == Some(BareMetadata(m))
    ensures EqualMetadata(DecodeMetadata(EncodeMetadata(m)).value, m)
  {
    var m1 := NEW_METADATA.(hostname := m.hostname);
    assert Apply(MetadataStep, NEW_METADATA, OptString(1, m.hostname)) == Some(m1) by {
      ApplyOne(MetadataStep, NEW_METADATA, OptString(1, m.hostname), m1);
    }
    assert Apply(MetadataStep, m1, OptString(2, m.version)) == Some(BareMetadata(m)) by {
      ApplyOne(MetadataStep, m1, OptString(2, m.version), BareMetadata(m));
    }
    ApplyThen(MetadataStep, NEW_METADATA, OptString(1, m.hostname), m1, OptString(2, m.version), BareMetadata(m));
    DecodeFields(MetadataStep, NEW_METADATA, MetadataFields(m));
  }

  ghost predicate OptMetadataDecodes(o: Option<Metadata>) {
    o.Some? ==> DecodeMetadata(EncodeMetadata(o.value)) == Some(BareMetadata(o.value))
  }

  lemma {:induction false} ClientApplied(c: Client)
    requires OptMetadataDecodes(c.metadata)
    ensures Apply(ClientStep, NEW_CLIENT, ClientFields(c)) == Some(BareClient(c))
  {
    var m1 := NEW_CLIENT.(index := c.index);
    assert Apply(ClientStep, NEW_CLIENT, OptVarint(1, c.index)) == Some(m1) by {
      Low32Fits(c.index);
      ApplyOne(ClientStep, NEW_CLIENT, OptVarint(1, c.index), m1);
    }
    assert Apply(ClientStep, m1, OptMetadata(2, c.metadata)) == Some(BareClient(c)) by {
      ApplyOne(ClientStep, m1, OptMetadata(2, c.metadata), BareClient(c));
    }
    ApplyThen(ClientStep, NEW_CLIENT, OptVarint(1, c.index), m1, OptMetadata(2, c.metadata), BareClient(c));
  }

  lemma {:induction false} ClientRoundTrip(c: Client)
    requires |EncodeClient(c)| < TWO32
    ensures DecodeClient(EncodeClient(c)) == Some(BareClient(c))
    ensures EqualClient(DecodeClient(EncodeClient(c)).value, c)
  {
    BareClientIsEqual(c);
    DecodeFields(ClientStep, NEW_CLIENT, ClientFields(c));
    assert OptMetadataDecodes(c.metadata) by {
      if c.metadata.Some? {
        FieldsFit(ClientFields(c));
        assert OptMetadata(2, c.metadata)[0] in ClientFields(c);
        MetadataRoundTrip(c.metadata.value);
      }
    }
    ClientApplied(c);
  }

  ghost predicate OptClientDecodes(o: Option<Client>) {
    o.Some? ==> DecodeClient(EncodeClient(o.value)) == Some(BareClient(o.value))
  }

  ghost predicate ResultDecodes(r: Result) {
    DecodeResult(EncodeResult(r)) == Some(BareResult(r))
  }

  lemma {:induction false} ResultRead(t: TaskResult, r: Result)
    requires ResultDecodes(r)
    ensures TaskResultStep(t, Len(3, EncodeResult(r))) == Some(t.(resultList := t.resultList + [BareResult(r)]))
  {
  }

  /** A field that is applied before others. */
  lemma {:induction false} ApplyFirst<M>(step: (M, Field) -> Option<M>, m: M, fs: seq<Field>)
    requires fs != [] && step(m, fs[0]).Some?
    ensures Apply(step, m, fs) == Apply(step, step(m, fs[0]).value, fs[1..])
  {
  }

  /** Results read one after the other are appended in order. */
  lemma {:induction false} ResultsApplied(t: TaskResult, rs: seq<Result>)
    requires forall i :: 0 <= i < |rs| ==> ResultDecodes(rs[i])
    ensures Apply(TaskResultStep, t, RepeatedResults(3, rs))
         == Some(t.(resultList := t.resultList + BareResults(rs)))
    decreases |rs|
  {
    if rs == [] {
      assert t.resultList + BareResults(rs) == t.resultList;
    } else {
      var fs := RepeatedResults(3, rs);
      var next := t.(resultList := t.resultList + [BareResult(rs[0])]);
      ResultRead(t, rs[0]);
      assert fs[1..] == RepeatedResults(3, rs[1..]);
      ApplyFirst(TaskResultStep, t, fs);
      ResultsApplied(next, rs[1..]);
      Associative(t.resultList, [BareResult(rs[0])], BareResults(rs[1..]));
    }
  }

  lemma {:induction false} TaskResultApplied(t: TaskResult)
    requires OptClientDecodes(t.client)
    requires forall i :: 0 <= i < |t.resultList| ==> ResultDecodes(t.resultList[i])
    ensures Apply(TaskResultStep, NEW_TASK_RESULT, TaskResultFields(t)) == Some(BareTaskResult(t))
  {
    var last := OptVarint(4, if t.isFinished then 1 else 0);
    var m1 := NEW_TASK_RESULT.(taskId := t.taskId);
    var m2 := m1.(client := BareTaskResult(t).client);
    var m3 := m2.(resultList := BareResults(t.resultList));
    assert Apply(TaskResultStep, NEW_TASK_RESULT, OptVarint(1, t.taskId)) == Some(m1) by {
      Low32Fits(t.taskId);
      ApplyOne(TaskResultStep, NEW_TASK_RESULT, OptVarint(1, t.taskId), m1);
    }
    assert Apply(TaskResultStep, m1, OptClient(2, t.client)) == Some(m2) by {
      ApplyOne(TaskResultStep, m1, OptClient(2, t.client), m2);
    }
    assert Apply(TaskResultStep, m2, RepeatedResults(3, t.resultList)) == Some(m3) by {
      ResultsApplied(m2, t.resultList);
      assert m2.resultList + BareResults(t.resultList) == BareResults(t.resultList);
    }
    assert Apply(TaskResultStep, m3, last) == Some(BareTaskResult(t)) by {
      Low32Fits(1);
      ApplyOne(TaskResultStep, m3, last, BareTaskResult(t));
    }
    ApplyFour(TaskResultStep, NEW_TASK_RESULT, OptVarint(1, t.taskId), m1, OptClient(2, t.client), m2,
              RepeatedResults(3, t.resultList), m3, last, BareTaskResult(t));
  }

  lemma {:induction false} TaskResultParts(t: TaskResult)
    ensures Plain(TaskResultFields(t))
    ensures t.client.Some? ==> OptClient(2, t.client)[0] in TaskResultFields(t)
    ensures forall i :: 0 <= i < |t.resultList| ==> Len(3, EncodeResult(t.resultList[i])) in TaskResultFields(t)
  {
    PlainFour(OptVarint(1, t.taskId), OptClient(2, t.client), RepeatedResults(3, t.resultList),
              OptVarint(4, if t.isFinished then 1 else 0));
    forall i | 0 <= i < |t.resultList|
      ensures Len(3, EncodeResult(t.resultList[i])) in RepeatedResults(3, t.resultList)
    {
      assert RepeatedResults(3, t.resultList)[i] == Len(3, EncodeResult(t.resultList[i]));
    }
  }

  lemma {:induction false} ClientInside(t: TaskResult)
    requires |EncodeTaskResult(t)| < TWO32
    ensures OptClientDecodes(t.client)
  {
    TaskResultParts(t);
    FieldsFit(TaskResultFields(t));
    if t.client.Some? {
      ClientRoundTrip(t.client.value);
    }
  }

  lemma {:induction false} ResultInside(t: TaskResult, i: nat)
    requires |EncodeTaskResult(t)| < TWO32 && i < |t.resultList|
    ensures ResultDecodes(t.resultList[i])
  {
    TaskResultParts(t);
    FieldsFit(TaskResultFields(t));
    ResultRoundTrip(t.resultList[i]);
  }

  /** Decoding the encoding of any task result gives the same tree: all numbers, absent and empty
      submessages, both address forms and lists of any length. */
  lemma {:induction false} TaskResultRoundTrip(t: TaskResult)
    requires |EncodeTaskResult(t)| < TWO32
    ensures DecodeTaskResult(EncodeTaskResult(t)) == Some(BareTaskResult(t))
    ensures EqualTaskResult(DecodeTaskResult(EncodeTaskResult(t)).value, t)
  {
    BareIsEqual(t);
    assert Apply(TaskResultStep, NEW_TASK_RESULT, TaskResultFields(t)) == Some(BareTaskResult(t)) by {
      ClientInside(t);
      forall i | 0 <= i < |t.resultList| ensures ResultDecodes(t.resultList[i]) {
        ResultInside(t, i);
      }
      TaskResultApplied(t);
    }
    TaskResultParts(t);
    DecodeFields(TaskResultStep, NEW_TASK_RESULT, TaskResultFields(t));
  }
}
