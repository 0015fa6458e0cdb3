// The bytes of every message, tag by tag, and what a decoder does with records it does not expect.
module Layout {
  import opened Common
  import opened Wire
  import opened Schema

  // ----- records -----

  /** A record is a varint of field number and wire type, then a varint, eight bytes, a counted string or
      four bytes. */
  lemma {:induction false} RecordLayout(f: Field)
    ensures f.Varint? ==> FieldBytes(f) == VarintBytes(8 * f.number) + VarintBytes(f.value)
    ensures f.Fixed64? ==> FieldBytes(f) == VarintBytes(8 * f.number + 1) + f.bytes
    ensures f.Len? ==> FieldBytes(f) == VarintBytes(8 * f.number + 2) + VarintBytes(|f.payload|) + f.payload
    ensures f.Fixed32? ==> FieldBytes(f) == VarintBytes(8 * f.number + 5) + f.bytes
    ensures f.Valid() && f.Fixed64? ==> |f.bytes| == 8
    ensures f.Valid() && f.Fixed32? ==> |f.bytes| == 4
  {
    if f.Len? { Associative(VarintBytes(8 * f.number + 2), VarintBytes(|f.payload|), f.payload); }
  }

  lemma {:induction false} AfterTag(number: nat, wireType: nat, rest: seq<byte>)
    requires number < 0x2000_0000 && wireType < 8
    ensures ReadField(VarintBytes(8 * number + wireType) + rest)
         == if number == 0 then None else ReadValue(number, wireType, rest)
  {
    var tag := 8 * number + wireType;
    VarintRoundTrip(tag, rest);
    TagParts(number, wireType);
    ByTag(VarintBytes(tag) + rest, tag, rest, number, wireType);
  }

  lemma {:induction false} ByTag(bs: seq<byte>, tag: u64, rest: seq<byte>, number: nat, wireType: nat)
    requires ReadVarint(bs) == Some((tag, rest)) && TagNumber(tag) == number && TagWireType(tag) == wireType
    ensures ReadField(bs) == if number == 0 then None else ReadValue(number, wireType, rest)
  {
  }

  /** A record with number 0, of any other wire type, or with too few bytes for its value is refused. */
  lemma {:induction false} BrokenRecordsRefused(number: nat, wireType: nat, rest: seq<byte>)
    requires number < 0x2000_0000 && wireType < 8
    requires || number == 0
             || wireType in {3, 4, 6, 7}
             || (wireType == 0 && forall i :: 0 <= i < |rest| && i < 10 ==> rest[i] >= 0x80)
             || (wireType == 1 && |rest| < 8)
             || (wireType == 5 && |rest| < 4)
    ensures ReadField(VarintBytes(8 * number + wireType) + rest) == None
  {
    AfterTag(number, wireType, rest);
    if wireType == 0 { VarintFails(rest); }
  }

  lemma {:induction false} ShortStringRefused(number: nat, count: u32, rest: seq<byte>)
    requires 1 <= number < 0x2000_0000 && |rest| < count
    ensures ReadField(VarintBytes(8 * number + 2) + (VarintBytes(count) + rest)) == None
  {
    AfterTag(number, 2, VarintBytes(count) + rest);
    ShortValue(number, count, rest);
  }

  lemma {:induction false} ShortValue(number: nat, count: u32, rest: seq<byte>)
    requires |rest| < count
    ensures ReadValue(number, 2, VarintBytes(count) + rest) == None
  {
    VarintRoundTrip(count, rest);
    ShortByCount(number, VarintBytes(count) + rest, count, rest);
  }

  lemma {:induction false} ShortByCount(number: nat, bs: seq<byte>, count: u32, rest: seq<byte>)
    requires ReadVarint(bs) == Some((count, rest)) && |rest| < count
    ensures ReadValue(number, 2, bs) == None
  {
  }

  // ----- messages as written -----

  /** A number that is left out when it is 0. */
  function Number(tag: byte, v: nat): seq<byte> {
    if v == 0 then [] else [tag] + VarintBytes(v)
  }

  /** A string of bytes behind its tag and its length. */
  function Counted(tag: byte, body: seq<byte>): seq<byte> {
    [tag] + VarintBytes(|body|) + body
  }

  lemma {:induction false} NumberField(number: nat, v: u64)
    requires 1 <= number < 16
    ensures FieldsBytes([Varint(number, v)]) == [8 * number] + VarintBytes(v)
    ensures FieldsBytes(OptVarint(number, v)) == Number(8 * number, v)
  {
    SingleField(Varint(number, v));
  }

  lemma {:induction false} CountedField(number: nat, body: seq<byte>)
    requires 1 <= number < 16
    ensures FieldsBytes([Len(number, body)]) == Counted(8 * number + 2, body)
  {
    SingleField(Len(number, body));
    RecordLayout(Len(number, body));
  }

  lemma {:induction false} AddressLayout(a: Address)
    ensures EncodeAddress(a) == match a.value
                                case Unset => []
                                case V4(v) => [0x08] + VarintBytes(v)
                                case V6(b) => Counted(0x12, b)
  {
    match a.value
    case Unset =>
    case V4(v) => NumberField(1, v);
    case V6(b) => CountedField(2, b);
  }

  function AddressAt(tag: byte, o: Option<Address>): seq<byte> {
    if o.None? then [] else Counted(tag, EncodeAddress(o.value))
  }

  lemma {:induction false} AddressField(number: nat, o: Option<Address>)
    requires 1 <= number < 16
    ensures FieldsBytes(OptAddress(number, o)) == AddressAt(8 * number + 2, o)
  {
    if o.Some? { CountedField(number, EncodeAddress(o.value)); }
  }

  lemma {:induction false} FourParts(a: seq<Field>, b: seq<Field>, c: seq<Field>, d: seq<Field>)
    ensures FieldsBytes(a + b + c + d) == FieldsBytes(a) + FieldsBytes(b) + FieldsBytes(c) + FieldsBytes(d)
  {
    FieldsBytesConcat(a, b);
    FieldsBytesConcat(a + b, c);
    FieldsBytesConcat(a + b + c, d);
  }

  lemma {:induction false} PayloadLayout(p: PingPayload)
    ensures EncodePayload(p) == Number(0x08, p.taskId) + Number(0x10, p.transmitTime)
                                + AddressAt(0x1A, p.sourceAddress) + AddressAt(0x22, p.destinationAddress)
  {
    FourParts(OptVarint(1, p.taskId), OptVarint(2, p.transmitTime),
              OptAddress(3, p.sourceAddress), OptAddress(4, p.destinationAddress));
    NumberField(1, p.taskId);
    NumberField(2, p.transmitTime);
    AddressField(3, p.sourceAddress);
    AddressField(4, p.destinationAddress);
  }

  lemma {:induction false} PingResultLayout(p: PingResult)
    ensures EncodePingResult(p) == AddressAt(0x0A, p.sourceAddress) + AddressAt(0x12, p.destinationAddress)
                                   + Number(0x18, p.receiveTime)
                                   + (if p.payload.None? then [] else Counted(0x22, EncodePayload(p.payload.value)))
                                   + Number(0x28, p.ttl)
  {
    var front := OptAddress(1, p.sourceAddress) + OptAddress(2, p.destinationAddress)
                 + OptVarint(3, p.receiveTime) + OptPayload(4, p.payload);
    FieldsBytesConcat(front, OptVarint(5, p.ttl));
    FourParts(OptAddress(1, p.sourceAddress), OptAddress(2, p.destinationAddress),
              OptVarint(3, p.receiveTime), OptPayload(4, p.payload));
    AddressField(1, p.sourceAddress);
    AddressField(2, p.destinationAddress);
    NumberField(3, p.receiveTime);
    if p.payload.Some? { CountedField(4, EncodePayload(p.payload.value)); }
    NumberField(5, p.ttl);
  }

  lemma {:induction false} ResultLayout(r: Result)
    ensures EncodeResult(r) == if r.ping.None? then [] else Counted(0x0A, EncodePingResult(r.ping.value))
  {
    if r.ping.Some? { CountedField(1, EncodePingResult(r.ping.value)); }
  }

  lemma {:induction false} MetadataLayout(m: Metadata)
    ensures EncodeMetadata(m) == (if m.hostname == [] then [] else Counted(0x0A, m.hostname))
                                 + (if m.version == [] then [] else Counted(0x12, m.version))
  {
    FieldsBytesConcat(OptString(1, m.hostname), OptString(2, m.version));
    CountedField(1, m.hostname);
    CountedField(2, m.version);
  }

  lemma {:induction false} ClientLayout(c: Client)
    ensures EncodeClient(c) == Number(0x08, c.index)
                               + (if c.metadata.None? then [] else Counted(0x12, EncodeMetadata(c.metadata.value)))
  {
    FieldsBytesConcat(OptVarint(1, c.index), OptMetadata(2, c.metadata));
    NumberField(1, c.index);
    if c.metadata.Some? { CountedField(2, EncodeMetadata(c.metadata.value)); }
  }

  /** The elements of a repeated field one behind the other, each with its own tag and length. */
  function AllCounted(tag: byte, rs: seq<Result>): seq<byte> {
    if rs == [] then [] else Counted(tag, EncodeResult(rs[0])) + AllCounted(tag, rs[1..])
  }

  lemma {:induction false} RepeatedLayout(number: nat, rs: seq<Result>)
    requires 1 <= number < 16
    ensures FieldsBytes(RepeatedResults(number, rs)) == AllCounted(8 * number + 2, rs)
    decreases |rs|
  {
    if rs != [] {
      var first := Len(number, EncodeResult(rs[0]));
      RepeatedLayout(number, rs[1..]);
      CountedField(number, EncodeResult(rs[0]));
      FieldsBytesConcat([first], RepeatedResults(number, rs[1..]));
    }
  }

  lemma {:induction false} FlagField(number: nat, flag: bool)
    requires 1 <= number < 16
    ensures FieldsBytes(OptVarint(number, if flag then 1 else 0)) == if flag then [8 * number, 0x01] else []
  {
    NumberField(number, 1);
    assert VarintBytes(1) == [1];
  }

  lemma {:induction false} ClientField(number: nat, o: Option<Client>)
    requires 1 <= number < 16
    ensures FieldsBytes(OptClient(number, o)) == if o.None? then [] else Counted(8 * number + 2, EncodeClient(o.value))
  {
    if o.Some? { CountedField(number, EncodeClient(o.value)); }
  }

  lemma {:induction false} TaskResultLayout(t: TaskResult)
    ensures EncodeTaskResult(t) == Number(0x08, t.taskId)
                                   + (if t.client.None? then [] else Counted(0x12, EncodeClient(t.client.value)))
                                   + AllCounted(0x1A, t.resultList)
                                   + (if t.isFinished then [0x20, 0x01] else [])
  {
    var last := OptVarint(4, if t.isFinished then 1 else 0);
    FourParts(OptVarint(1, t.taskId), OptClient(2, t.client), RepeatedResults(3, t.resultList), last);
    NumberField(1, t.taskId);
    ClientField(2, t.client);
    RepeatedLayout(3, t.resultList);
    FlagField(4, t.isFinished);
  }

  // ----- messages as read: records that are not expected -----

  /** Merging what begins with records goes on with the rest after them. */
  lemma {:induction false} MergeRecords<M>(step: (M, Field) -> Option<M>, m: M, fs: seq<Field>, rest: seq<byte>)
    requires AllValid(fs)
    ensures Merge(step, m, FieldsBytes(fs) + rest)
         == if Apply(step, m, fs).None? then None else Merge(step, Apply(step, m, fs).value, rest)
    decreases |fs|
  {
    if fs == [] {
      assert FieldsBytes(fs) + rest == rest;
    } else {
      var after := FieldsBytes(fs[1..]) + rest;
      assert FieldsBytes(fs) + rest == FieldBytes(fs[0]) + after;
      FieldRoundTrip(fs[0], after);
      var next := step(m, fs[0]);
      if next.Some? { MergeRecords(step, next.value, fs[1..], rest); }
    }
  }

  /** One record more: it is refused, or it changes the message and the rest follows. */
  lemma {:induction false} MergeOne<M>(step: (M, Field) -> Option<M>, m: M, fs: seq<Field>, f: Field, rest: seq<byte>)
    requires AllValid(fs) && f.Valid()
    requires Apply(step, m, fs).Some?
    ensures var n := Apply(step, m, fs).value;
            Merge(step, m, FieldsBytes(fs) + FieldBytes(f) + rest)
            == if step(n, f).None? then None else Merge(step, step(n, f).value, rest)
  {
    var n := Apply(step, m, fs).value;
    Associative(FieldsBytes(fs), FieldBytes(f), rest);
    MergeRecords(step, m, fs, FieldBytes(f) + rest);
    FieldRoundTrip(f, rest);
  }

  // A known field of the wrong type, or holding bytes that do not decode, is an error wherever it comes
  // after valid records; a field of another number changes nothing.

  lemma {:induction false} AddressDispatch(fs: seq<Field>, f: Field, rest: seq<byte>)
    requires AllValid(fs) && f.Valid() && Apply(AddressStep, NEW_ADDRESS, fs).Some?
    ensures (f.number == 1 && !f.Varint?) || (f.number == 2 && !f.Len?) ==>
              DecodeAddress(FieldsBytes(fs) + FieldBytes(f) + rest) == None
    ensures f.number > 2 ==>
              DecodeAddress(FieldsBytes(fs) + FieldBytes(f) + rest) == DecodeAddress(FieldsBytes(fs) + rest)
  {
    MergeOne(AddressStep, NEW_ADDRESS, fs, f, rest);
    MergeRecords(AddressStep, NEW_ADDRESS, fs, rest);
  }

  lemma {:induction false} PayloadDispatch(fs: seq<Field>, f: Field, rest: seq<byte>)
    requires AllValid(fs) && f.Valid() && Apply(PayloadStep, NEW_PAYLOAD, fs).Some?
    ensures (|| (f.number in {1, 2} && !f.Varint?)
             || (f.number in {3, 4} && (!f.Len? || DecodeAddress(f.payload).None?))) ==>
              DecodePayload(FieldsBytes(fs) + FieldBytes(f) + rest) == None
    ensures f.number > 4 ==>
              DecodePayload(FieldsBytes(fs) + FieldBytes(f) + rest) == DecodePayload(FieldsBytes(fs) + rest)
  {
    MergeOne(PayloadStep, NEW_PAYLOAD, fs, f, rest);
    MergeRecords(PayloadStep, NEW_PAYLOAD, fs, rest);
  }

  lemma {:induction false} PingResultDispatch(fs: seq<Field>, f: Field, rest: seq<byte>)
    requires AllValid(fs) && f.Valid() && Apply(PingResultStep, NEW_PING_RESULT, fs).Some?
    ensures (|| (f.number in {3, 5} && !f.Varint?)
             || (f.number in {1, 2} && (!f.Len? || DecodeAddress(f.payload).None?))
             || (f.number == 4 && (!f.Len? || DecodePayload(f.payload).None?))) ==>
              DecodePingResult(FieldsBytes(fs) + FieldBytes(f) + rest) == None
    ensures f.number > 5 ==>
              DecodePingResult(FieldsBytes(fs) + FieldBytes(f) + rest) == DecodePingResult(FieldsBytes(fs) + rest)
  {
    MergeOne(PingResultStep, NEW_PING_RESULT, fs, f, rest);
    MergeRecords(PingResultStep, NEW_PING_RESULT, fs, rest);
  }

  lemma {:induction false} ResultDispatch(fs: seq<Field>, f: Field, rest: seq<byte>)
    requires AllValid(fs) && f.Valid() && Apply(ResultStep, NEW_RESULT, fs).Some?
    ensures f.number == 1 && (!f.Len? || DecodePingResult(f.payload).None?) ==>
              DecodeResult(FieldsBytes(fs) + FieldBytes(f) + rest) == None
    ensures f.number > 1 ==>
              DecodeResult(FieldsBytes(fs) + FieldBytes(f) + rest) == DecodeResult(FieldsBytes(fs) + rest)
  {
    MergeOne(ResultStep, NEW_RESULT, fs, f, rest);
    MergeRecords(ResultStep, NEW_RESULT, fs, rest);
  }

  lemma {:induction false} MetadataDispatch(fs: seq<Field>, f: Field, rest: seq<byte>)
    requires AllValid(fs) && f.Valid() && Apply(MetadataStep, NEW_METADATA, fs).Some?
    ensures f.number in {1, 2} && !f.Len? ==> DecodeMetadata(FieldsBytes(fs) + FieldBytes(f) + rest) == None
    ensures f.number > 2 ==>
              DecodeMetadata(FieldsBytes(fs) + FieldBytes(f) + rest) == DecodeMetadata(FieldsBytes(fs) + rest)
  {
    MergeOne(MetadataStep, NEW_METADATA, fs, f, rest);
    MergeRecords(MetadataStep, NEW_METADATA, fs, rest);
  }

  lemma {:induction false} ClientDispatch(fs: seq<Field>, f: Field, rest: seq<byte>)
    requires AllValid(fs) && f.Valid() && Apply(ClientStep, NEW_CLIENT, fs).Some?
    ensures (f.number == 1 && !f.Varint?) || (f.number == 2 && (!f.Len? || DecodeMetadata(f.payload).None?)) ==>
              DecodeClient(FieldsBytes(fs) + FieldBytes(f) + rest) == None
    ensures f.number > 2 ==>
              DecodeClient(FieldsBytes(fs) + FieldBytes(f) + rest) == DecodeClient(FieldsBytes(fs) + rest)
  {
    MergeOne(ClientStep, NEW_CLIENT, fs, f, rest);
    MergeRecords(ClientStep, NEW_CLIENT, fs, rest);
  }

  lemma {:induction false} TaskResultDispatch(fs: seq<Field>, f: Field, rest: seq<byte>)
    requires AllValid(fs) && f.Valid() && Apply(TaskResultStep, NEW_TASK_RESULT, fs).Some?
    ensures (|| (f.number in {1, 4} && !f.Varint?)
             || (f.number == 2 && (!f.Len? || DecodeClient(f.payload).None?))
             || (f.number == 3 && (!f.Len? || DecodeResult(f.payload).None?))) ==>
              DecodeTaskResult(FieldsBytes(fs) + FieldBytes(f) + rest) == None
    ensures f.number > 4 ==>
              DecodeTaskResult(FieldsBytes(fs) + FieldBytes(f) + rest) == DecodeTaskResult(FieldsBytes(fs) + rest)
  {
    MergeOne(TaskResultStep, NEW_TASK_RESULT, fs, f, rest);
    MergeRecords(TaskResultStep, NEW_TASK_RESULT, fs, rest);
  }

  lemma {:induction false} DecodeSingle<M>(step: (M, Field) -> Option<M>, m: M, f: Field)
    requires f.Valid()
    ensures Merge(step, m, FieldBytes(f)) == step(m, f)
  {
    assert FieldBytes(f) + [] == FieldBytes(f);
    FieldRoundTrip(f, []);
  }

  lemma {:induction false} CutOff(v: u64, q: nat, w: u32)
    requires v == 0x1_0000_0000 * q + w
    ensures Low32(v) == w
  {
  }

  /** A number too large for its 32-bit field loses its upper bits; a flag is set by any number but 0, after
      that. Times have 64 bits and lose nothing. */
  lemma {:induction false} AddressIsCut(v: u64, q: nat, w: u32)
    requires v == 0x1_0000_0000 * q + w
    ensures DecodeAddress(FieldBytes(Varint(1, v))) == Some(NEW_ADDRESS.(value := V4(w)))
  {
    CutOff(v, q, w);
    DecodeSingle(AddressStep, NEW_ADDRESS, Varint(1, v));
  }

  lemma {:induction false} PayloadTaskIsCut(v: u64, q: nat, w: u32)
    requires v == 0x1_0000_0000 * q + w
    ensures DecodePayload(FieldBytes(Varint(1, v))) == Some(NEW_PAYLOAD.(taskId := w))
  {
    CutOff(v, q, w);
    DecodeSingle(PayloadStep, NEW_PAYLOAD, Varint(1, v));
  }

  lemma {:induction false} TtlRead(f: Field, w: u32)
    requires f.number == 5 && f.Varint? && Low32(f.value) == w
    ensures PingResultStep(NEW_PING_RESULT, f) == Some(NEW_PING_RESULT.(ttl := w))
  {
  }

  lemma {:induction false} TtlIsCut(v: u64, q: nat, w: u32)
    requires v == 0x1_0000_0000 * q + w
    ensures DecodePingResult(FieldBytes(Varint(5, v))) == Some(NEW_PING_RESULT.(ttl := w))
  {
    var f := Varint(5, v);
    CutOff(v, q, w);
    TtlRead(f, w);
    DecodeSingle(PingResultStep, NEW_PING_RESULT, f);
  }

  lemma {:induction false} IndexIsCut(v: u64, q: nat, w: u32)
    requires v == 0x1_0000_0000 * q + w
    ensures DecodeClient(FieldBytes(Varint(1, v))) == Some(NEW_CLIENT.(index := w))
  {
    CutOff(v, q, w);
    DecodeSingle(ClientStep, NEW_CLIENT, Varint(1, v));
  }

  lemma {:induction false} TaskIsCut(v: u64, q: nat, w: u32)
    requires v == 0x1_0000_0000 * q + w
    ensures DecodeTaskResult(FieldBytes(Varint(1, v))) == Some(NEW_TASK_RESULT.(taskId := w))
  {
    CutOff(v, q, w);
    DecodeSingle(TaskResultStep, NEW_TASK_RESULT, Varint(1, v));
  }

  lemma {:induction false} FlagIsCut(v: u64, q: nat, w: u32)
    requires v == 0x1_0000_0000 * q + w
    ensures DecodeTaskResult(FieldBytes(Varint(4, v))) == Some(NEW_TASK_RESULT.(isFinished := w != 0))
  {
    CutOff(v, q, w);
    DecodeSingle(TaskResultStep, NEW_TASK_RESULT, Varint(4, v));
  }

  lemma {:induction false} TimesAreWhole(v: u64)
    ensures DecodePayload(FieldBytes(Varint(2, v))) == Some(NEW_PAYLOAD.(transmitTime := v))
    ensures DecodePingResult(FieldBytes(Varint(3, v))) == Some(NEW_PING_RESULT.(receiveTime := v))
  {
    DecodeSingle(PayloadStep, NEW_PAYLOAD, Varint(2, v));
    DecodeSingle(PingResultStep, NEW_PING_RESULT, Varint(3, v));
  }
}
