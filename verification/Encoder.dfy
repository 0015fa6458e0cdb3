// The encoder's methods: the size pass, the writing pass and `write_to_bytes`.
module Encoder {
  import opened Common
  import opened Wire
  import opened Schema
  import opened Writing
  import opened Layout

  class CodedOutputStream {
    var buffer: seq<byte>

    constructor ()
      ensures buffer == []
    {
      buffer := [];
    }

    method WriteRawVarint(v: nat)
      modifies this
      ensures buffer == old(buffer) + VarintBytes(v)
    {
      buffer := buffer + VarintBytes(v);
    }

    method WriteTag(number: nat, wireType: nat)
      modifies this
      ensures buffer == old(buffer) + Tag(number, wireType)
    {
      buffer := buffer + Tag(number, wireType);
    }

    method WriteNumber(number: nat, v: u64)
      modifies this
      ensures buffer == old(buffer) + FieldsBytes([Varint(number, v)])
    {
      ghost var b0 := buffer;
      WriteTag(number, 0);
      WriteRawVarint(v);
      NumberWritten(b0, number, v);
    }

    method WriteBytes(number: nat, b: seq<byte>)
      modifies this
      ensures buffer == old(buffer) + FieldsBytes([Len(number, b)])
    {
      ghost var b0 := buffer;
      WriteTag(number, 2);
      WriteRawVarint(|b|);
      buffer := buffer + b;
      BytesWritten(b0, number, b);
    }
  }

  lemma {:induction false} NumberWritten(front: seq<byte>, number: nat, v: u64)
    ensures front + Tag(number, 0) + VarintBytes(v) == front + FieldsBytes([Varint(number, v)])
  {
    SingleField(Varint(number, v));
    assert FieldBytes(Varint(number, v)) == Tag(number, 0) + VarintBytes(v);
  }

  lemma {:induction false} BytesWritten(front: seq<byte>, number: nat, b: seq<byte>)
    ensures front + Tag(number, 2) + VarintBytes(|b|) + b == front + FieldsBytes([Len(number, b)])
  {
    SingleField(Len(number, b));
    Regroup(front, Tag(number, 2), VarintBytes(|b|), b);
  }

  lemma {:induction false} Regroup(w: seq<byte>, x: seq<byte>, y: seq<byte>, z: seq<byte>)
    ensures w + x + y + z == w + (x + (y + z))
  {
  }

  // ----- size pass: u32 arithmetic that wraps in a release build -----

  /** `after` is `before + n`, unless the sum has left the range of u32. */
  ghost predicate Adds(before: u32, n: nat, after: u32) {
    before + n < TWO32 ==> after == before + n
  }

  lemma {:induction false} LenSize(number: nat, body: seq<byte>)
    requires 1 <= number < 16
    ensures |FieldsBytes([Len(number, body)])| == 1 + |VarintBytes(|body|)| + |body|
  {
    SingleField(Len(number, body));
  }

  lemma {:induction false} VarintFieldSize(number: nat, v: u64)
    requires 1 <= number < 16
    ensures |FieldsBytes([Varint(number, v)])| == 1 + VarintSize(v)
  {
    SingleField(Varint(number, v));
    VarintSizeExact(v);
  }

  /** The size of a number that is written whatever its value. */
  method AddValue(number: nat, v: u64, size: u32) returns (size': u32)
    requires 1 <= number < 16
    ensures Adds(size, |FieldsBytes([Varint(number, v)])|, size')
  {
    size' := Add32(size, 1 + VarintSize(v));
    VarintFieldSize(number, v);
  }

  method AddNumber(number: nat, v: u64, size: u32) returns (size': u32)
    requires 1 <= number < 16
    ensures Adds(size, |FieldsBytes(OptVarint(number, v))|, size')
  {
    size' := size;
    if v != 0 {
      size' := AddValue(number, v, size');
    }
  }

  /** The length of a byte string is cut off to 32 bits before it is counted. */
  method AddBytes(number: nat, s: seq<byte>, size: u32) returns (size': u32)
    requires 1 <= number < 16
    ensures Adds(size, |FieldsBytes([Len(number, s)])|, size')
  {
    var len := Low32(|s| % TWO64);
    if |s| < TWO32 { Low32Fits(|s|); }
    LenSize(number, s);
    size' := AddMessage(number, len, s, size);
  }

  method AddString(number: nat, s: seq<byte>, size: u32) returns (size': u32)
    requires 1 <= number < 16
    ensures Adds(size, |FieldsBytes(OptString(number, s))|, size')
  {
    size' := size;
    if s != [] {
      size' := AddBytes(number, s, size');
    }
  }

  /** A nested message costs its tag, its length prefix and itself. */
  method AddMessage(number: nat, len: u32, ghost body: seq<byte>, size: u32) returns (size': u32)
    requires 1 <= number < 16
    requires |body| < TWO32 ==> len == |body|
    ensures Adds(size, |FieldsBytes([Len(number, body)])|, size')
  {
    size' := Add32(size, 1 + VarintSize(len) + len);
    VarintSizeExact(len);
    LenSize(number, body);
  }

  method SizeAddress(a: Address) returns (r: Address)
    ensures BareAddress(r) == BareAddress(a)
    ensures ExactAddress(r) <==> |EncodeAddress(a)| < TWO32
  {
    var mySize: u32 := 0;
    match a.value {
      case Unset =>
      case V4(v) => mySize := AddValue(1, v, mySize);
      case V6(b) => mySize := AddBytes(2, b, mySize);
    }
    r := a.(cachedSize := mySize);
    SameAddressBytes(a, r);
  }

  method AddAddress(number: nat, o: Option<Address>, size: u32) returns (size': u32, r: Option<Address>)
    requires 1 <= number < 16
    ensures BareOptAddress(r) == BareOptAddress(o)
    ensures |FieldsBytes(OptAddress(number, o))| < TWO32 ==> ExactOptAddress(r)
    ensures Adds(size, |FieldsBytes(OptAddress(number, o))|, size')
  {
    size', r := size, o;
    if o.Some? {
      var a := SizeAddress(o.value);
      r := Some(a);
      SameAddressBytes(o.value, a);
      LenSize(number, EncodeAddress(o.value));
      size' := AddMessage(number, a.cachedSize, EncodeAddress(o.value), size);
    }
  }

  lemma {:induction false} PayloadLength(p: PingPayload)
    ensures |EncodePayload(p)| == |FieldsBytes(OptVarint(1, p.taskId))| + |FieldsBytes(OptVarint(2, p.transmitTime))|
                                  + |FieldsBytes(OptAddress(3, p.sourceAddress))|
                                  + |FieldsBytes(OptAddress(4, p.destinationAddress))|
  {
    FieldsBytesFour(OptVarint(1, p.taskId), OptVarint(2, p.transmitTime),
                    OptAddress(3, p.sourceAddress), OptAddress(4, p.destinationAddress));
  }

  method SizePayload(p: PingPayload) returns (r: PingPayload)
    ensures BarePayload(r) == BarePayload(p)
    ensures ExactPayload(r) <==> |EncodePayload(p)| < TWO32
  {
    var mySize: u32 := 0;
    var source, destination;
    mySize := AddNumber(1, p.taskId, mySize);
    mySize := AddNumber(2, p.transmitTime, mySize);
    mySize, source := AddAddress(3, p.sourceAddress, mySize);
    mySize, destination := AddAddress(4, p.destinationAddress, mySize);
    r := p.(sourceAddress := source, destinationAddress := destination, cachedSize := mySize);
    SamePayloadBytes(p, r);
    PayloadLength(p);
  }

  method AddPayload(number: nat, o: Option<PingPayload>, size: u32) returns (size': u32, r: Option<PingPayload>)
    requires 1 <= number < 16
    ensures BareOptPayload(r) == BareOptPayload(o)
    ensures |FieldsBytes(OptPayload(number, o))| < TWO32 ==> ExactOptPayload(r)
    ensures Adds(size, |FieldsBytes(OptPayload(number, o))|, size')
  {
    size', r := size, o;
    if o.Some? {
      var p := SizePayload(o.value);
      r := Some(p);
      SamePayloadBytes(o.value, p);
      LenSize(number, EncodePayload(o.value));
      size' := AddMessage(number, p.cachedSize, EncodePayload(o.value), size);
    }
  }

  lemma {:induction false} PingResultLength(p: PingResult)
    ensures |EncodePingResult(p)|
         == |FieldsBytes(OptAddress(1, p.sourceAddress))| + |FieldsBytes(OptAddress(2, p.destinationAddress))|
            + |FieldsBytes(OptVarint(3, p.receiveTime))| + |FieldsBytes(OptPayload(4, p.payload))|
            + |FieldsBytes(OptVarint(5, p.ttl))|
  {
    PingResultBytes(p);
  }

  method SizePingResult(p: PingResult) returns (r: PingResult)
    ensures BarePingResult(r) == BarePingResult(p)
    ensures ExactPingResult(r) <==> |EncodePingResult(p)| < TWO32
  {
    var mySize: u32 := 0;
    var source, destination, payload;
    mySize, source := AddAddress(1, p.sourceAddress, mySize);
    mySize, destination := AddAddress(2, p.destinationAddress, mySize);
    mySize := AddNumber(3, p.receiveTime, mySize);
    mySize, payload := AddPayload(4, p.payload, mySize);
    mySize := AddNumber(5, p.ttl, mySize);
    r := PingResult(source, destination, p.receiveTime, payload, p.ttl, mySize);
    SamePingResultBytes(p, r);
    PingResultLength(p);
  }

  method SizeResult(m: Result) returns (r: Result)
    ensures BareResult(r) == BareResult(m)
    ensures ExactResult(r) <==> |EncodeResult(m)| < TWO32
  {
    var mySize: u32 := 0;
    r := m;
    if m.ping.Some? {
      var p := SizePingResult(m.ping.value);
      r := Result(Some(p), 0);
      SamePingResultBytes(m.ping.value, p);
      LenSize(1, EncodePingResult(m.ping.value));
      mySize := AddMessage(1, p.cachedSize, EncodePingResult(m.ping.value), mySize);
    }
    r := r.(cachedSize := mySize);
    SameResultBytes(m, r);
  }

  method SizeMetadata(m: Metadata) returns (r: Metadata)
    ensures BareMetadata(r) == BareMetadata(m)
    ensures ExactMetadata(r) <==> |EncodeMetadata(m)| < TWO32
  {
    var mySize: u32 := 0;
    mySize := AddString(1, m.hostname, mySize);
    mySize := AddString(2, m.version, mySize);
    r := m.(cachedSize := mySize);
    FieldsBytesConcat(OptString(1, m.hostname), OptString(2, m.version));
  }

  method SizeClient(c: Client) returns (r: Client)
    ensures BareClient(r) == BareClient(c)
    ensures ExactClient(r) <==> |EncodeClient(c)| < TWO32
  {
    var mySize: u32 := 0;
    mySize := AddNumber(1, c.index, mySize);
    r := c;
    if c.metadata.Some? {
      var m := SizeMetadata(c.metadata.value);
      r := c.(metadata := Some(m));
      assert MetadataFields(m) == MetadataFields(c.metadata.value);
      LenSize(2, EncodeMetadata(m));
      mySize := AddMessage(2, m.cachedSize, EncodeMetadata(m), mySize);
    }
    r := r.(cachedSize := mySize);
    SameClientBytes(c, r);
    FieldsBytesConcat(OptVarint(1, c.index), OptMetadata(2, c.metadata));
  }

  method AddClient(number: nat, o: Option<Client>, size: u32) returns (size': u32, r: Option<Client>)
    requires 1 <= number < 16
    ensures r.Some? <==> o.Some?
    ensures o.Some? ==> BareClient(r.value) == BareClient(o.value)
    ensures |FieldsBytes(OptClient(number, o))| < TWO32 ==> ExactOptClient(r)
    ensures Adds(size, |FieldsBytes(OptClient(number, o))|, size')
  {
    size', r := size, o;
    if o.Some? {
      var c := SizeClient(o.value);
      r := Some(c);
      SameClientBytes(o.value, c);
      LenSize(number, EncodeClient(o.value));
      size' := AddMessage(number, c.cachedSize, EncodeClient(o.value), size);
    }
  }

  /** One more element of a repeated field. */
  method AddResult(m: Result, size: u32) returns (size': u32, r: Result)
    ensures BareResult(r) == BareResult(m)
    ensures |FieldsBytes([Len(3, EncodeResult(m))])| < TWO32 ==> ExactResult(r)
    ensures Adds(size, |FieldsBytes([Len(3, EncodeResult(m))])|, size')
  {
    r := SizeResult(m);
    SameResultBytes(m, r);
    LenSize(3, EncodeResult(m));
    size' := AddMessage(3, r.cachedSize, EncodeResult(m), size);
  }

  ghost predicate SameResults(rs: seq<Result>, r: seq<Result>) {
    |r| == |rs| && forall i :: 0 <= i < |rs| ==> BareResult(r[i]) == BareResult(rs[i])
  }

  lemma {:induction false} OneMoreResult(rs: seq<Result>, i: nat, r: seq<Result>, m: Result)
    requires i < |rs| && SameResults(rs[..i], r) && BareResult(m) == BareResult(rs[i])
    ensures SameResults(rs[..i + 1], r + [m])
  {
  }

  lemma {:induction false} OneMoreSize(rs: seq<Result>, i: nat)
    requires i < |rs|
    ensures RepeatedSize(rs[..i + 1]) == RepeatedSize(rs[..i]) + |FieldsBytes([Len(3, EncodeResult(rs[i]))])|
  {
    assert rs[..i + 1] == rs[..i] + [rs[i]];
    RepeatedSnoc(3, rs[..i], rs[i]);
    FieldsBytesConcat(RepeatedResults(3, rs[..i]), [Len(3, EncodeResult(rs[i]))]);
  }

  ghost function RepeatedSize(rs: seq<Result>): nat {
    |FieldsBytes(RepeatedResults(3, rs))|
  }

  /** The size pass has been over rs, giving r, and has taken the running size from `before` to `after`. */
  ghost predicate Passed(rs: seq<Result>, r: seq<Result>, before: u32, after: u32) {
    && SameResults(rs, r)
    && (RepeatedSize(rs) < TWO32 ==> ExactResults(r))
    && Adds(before, RepeatedSize(rs), after)
  }

  lemma {:induction false} PassedOneMore(rs: seq<Result>, i: nat, r: seq<Result>, m: Result, before: u32, between: u32, after: u32)
    requires i < |rs| && Passed(rs[..i], r, before, between) && BareResult(m) == BareResult(rs[i])
    requires |FieldsBytes([Len(3, EncodeResult(rs[i]))])| < TWO32 ==> ExactResult(m)
    requires Adds(between, |FieldsBytes([Len(3, EncodeResult(rs[i]))])|, after)
    ensures Passed(rs[..i + 1], r + [m], before, after)
  {
    OneMoreResult(rs, i, r, m);
    OneMoreSize(rs, i);
    if RepeatedSize(rs[..i + 1]) < TWO32 { OneMoreExact(r, m); }
  }

  lemma {:induction false} OneMoreExact(r: seq<Result>, m: Result)
    requires ExactResults(r) && ExactResult(m)
    ensures ExactResults(r + [m])
  {
  }

  method AddResults(rs: seq<Result>, size: u32) returns (size': u32, r: seq<Result>)
    ensures Passed(rs, r, size, size')
  {
    size', r := size, [];
    for i := 0 to |rs|
      invariant Passed(rs[..i], r, size, size')
    {
      ghost var between := size';
      var m;
      size', m := AddResult(rs[i], size');
      PassedOneMore(rs, i, r, m, size, between, size');
      r := r + [m];
    }
    assert rs[..|rs|] == rs;
  }

  lemma {:induction false} TaskResultLength(t: TaskResult)
    ensures |EncodeTaskResult(t)|
         == |FieldsBytes(OptVarint(1, t.taskId))| + |FieldsBytes(OptClient(2, t.client))|
            + |FieldsBytes(RepeatedResults(3, t.resultList))|
            + |FieldsBytes(OptVarint(4, if t.isFinished then 1 else 0))|
  {
    FieldsBytesFour(OptVarint(1, t.taskId), OptClient(2, t.client), RepeatedResults(3, t.resultList),
                    OptVarint(4, if t.isFinished then 1 else 0));
  }

  lemma {:induction false} SameTrees(t: TaskResult, client: Option<Client>, results: seq<Result>, size: u32)
    requires client.Some? <==> t.client.Some?
    requires client.Some? ==> BareClient(client.value) == BareClient(t.client.value)
    requires SameResults(t.resultList, results)
    ensures BareTaskResult(TaskResult(t.taskId, client, results, t.isFinished, size)) == BareTaskResult(t)
  {
    assert BareResults(results) == BareResults(t.resultList) by {
      assert forall i :: 0 <= i < |results| ==> BareResults(results)[i] == BareResults(t.resultList)[i];
    }
  }

  /** The size pass over a whole tree: it changes nothing but the stored sizes, and they are all exact
      precisely when the encoding is shorter than 4 GiB. */
  method SizeTaskResult(t: TaskResult) returns (r: TaskResult)
    ensures BareTaskResult(r) == BareTaskResult(t) && EqualTaskResult(r, t)
    ensures ExactTaskResult(r) <==> |EncodeTaskResult(t)| < TWO32
  {
    var mySize: u32 := 0;
    var client, results;
    mySize := AddNumber(1, t.taskId, mySize);
    mySize, client := AddClient(2, t.client, mySize);
    mySize, results := AddResults(t.resultList, mySize);
    mySize := AddFlag(t.isFinished, mySize);
    r := TaskResult(t.taskId, client, results, t.isFinished, mySize);
    SameTrees(t, client, results, mySize);
    BareTaskResultEqual(r, t);
    SameTaskResultBytes(t, r);
    TaskResultLength(t);
  }

  method AddFlag(isFinished: bool, size: u32) returns (size': u32)
    ensures Adds(size, |FieldsBytes(OptVarint(4, if isFinished then 1 else 0))|, size')
  {
    size' := size;
    if isFinished != false {
      size' := Add32(size', 2);
      SingleField(Varint(4, 1));
    }
  }

  // ----- writing pass -----

  method WriteAddress(a: Address, os: CodedOutputStream)
    modifies os
    ensures os.buffer == old(os.buffer) + EncodeAddress(a)
  {
    match a.value {
      case Unset =>
      case V4(v) => os.WriteNumber(1, v);
      case V6(b) =>
        os.WriteBytes(2, b);
    }
  }

  method WriteOptNumber(number: nat, v: u64, os: CodedOutputStream)
    modifies os
    ensures os.buffer == old(os.buffer) + FieldsBytes(OptVarint(number, v))
  {
    if v != 0 { os.WriteNumber(number, v); }
  }

  method WriteOptString(number: nat, s: seq<byte>, os: CodedOutputStream)
    modifies os
    ensures os.buffer == old(os.buffer) + FieldsBytes(OptString(number, s))
  {
    if s != [] { os.WriteBytes(number, s); }
  }

  /** Tag and length prefix of a nested message; the prefix is whatever size is stored in it. */
  method WriteHead(number: nat, cachedSize: u32, os: CodedOutputStream)
    modifies os
    ensures os.buffer == old(os.buffer) + (Tag(number, 2) + VarintBytes(cachedSize))
  {
    os.WriteTag(number, 2);
    os.WriteRawVarint(cachedSize);
  }

  method WriteOptAddress(number: nat, o: Option<Address>, os: CodedOutputStream)
    modifies os
    ensures os.buffer == old(os.buffer) + WrittenOptAddress(number, o)
  {
    if o.Some? {
      ghost var b := os.buffer;
      WriteHead(number, o.value.cachedSize, os);
      WriteAddress(o.value, os);
      Associative(b, Tag(number, 2) + VarintBytes(o.value.cachedSize), EncodeAddress(o.value));
    }
  }

  lemma {:induction false} BehindFour(b: seq<byte>, w: seq<byte>, x: seq<byte>, y: seq<byte>, z: seq<byte>)
    ensures b + w + x + y + z == b + (w + x + y + z)
  {
  }

  method WritePayload(p: PingPayload, os: CodedOutputStream)
    modifies os
    ensures os.buffer == old(os.buffer) + WrittenPayload(p)
  {
    ghost var b := os.buffer;
    WriteOptNumber(1, p.taskId, os);
    WriteOptNumber(2, p.transmitTime, os);
    WriteOptAddress(3, p.sourceAddress, os);
    WriteOptAddress(4, p.destinationAddress, os);
    BehindFour(b, FieldsBytes(OptVarint(1, p.taskId)), FieldsBytes(OptVarint(2, p.transmitTime)),
               WrittenOptAddress(3, p.sourceAddress), WrittenOptAddress(4, p.destinationAddress));
  }

  method WriteOptPayload(number: nat, o: Option<PingPayload>, os: CodedOutputStream)
    modifies os
    ensures os.buffer == old(os.buffer) + WrittenOptPayload(number, o)
  {
    if o.Some? {
      ghost var b := os.buffer;
      WriteHead(number, o.value.cachedSize, os);
      WritePayload(o.value, os);
      Associative(b, Tag(number, 2) + VarintBytes(o.value.cachedSize), WrittenPayload(o.value));
    }
  }

  method WritePingResult(p: PingResult, os: CodedOutputStream)
    modifies os
    ensures os.buffer == old(os.buffer) + WrittenPingResult(p)
  {
    ghost var b := os.buffer;
    WriteOptAddress(1, p.sourceAddress, os);
    WriteOptAddress(2, p.destinationAddress, os);
    WriteOptNumber(3, p.receiveTime, os);
    WriteOptPayload(4, p.payload, os);
    WriteOptNumber(5, p.ttl, os);
    BehindFour(b, WrittenOptAddress(1, p.sourceAddress), WrittenOptAddress(2, p.destinationAddress),
               FieldsBytes(OptVarint(3, p.receiveTime)), WrittenOptPayload(4, p.payload));
    Associative(b, WrittenOptAddress(1, p.sourceAddress) + WrittenOptAddress(2, p.destinationAddress)
              + FieldsBytes(OptVarint(3, p.receiveTime)) + WrittenOptPayload(4, p.payload),
           FieldsBytes(OptVarint(5, p.ttl)));
  }

  method WriteResult(r: Result, os: CodedOutputStream)
    modifies os
    ensures os.buffer == old(os.buffer) + WrittenResult(r)
  {
    if r.ping.Some? {
      ghost var b := os.buffer;
      WriteHead(1, r.ping.value.cachedSize, os);
      WritePingResult(r.ping.value, os);
      Associative(b, Tag(1, 2) + VarintBytes(r.ping.value.cachedSize), WrittenPingResult(r.ping.value));
    }
  }

  method WriteMetadata(m: Metadata, os: CodedOutputStream)
    modifies os
    ensures os.buffer == old(os.buffer) + EncodeMetadata(m)
  {
    ghost var b := os.buffer;
    WriteOptString(1, m.hostname, os);
    WriteOptString(2, m.version, os);
    FieldsBytesConcat(OptString(1, m.hostname), OptString(2, m.version));
    Associative(b, FieldsBytes(OptString(1, m.hostname)), FieldsBytes(OptString(2, m.version)));
  }

  method WriteOptMetadata(number: nat, o: Option<Metadata>, os: CodedOutputStream)
    modifies os
    ensures os.buffer == old(os.buffer) + WrittenOptMetadata(number, o)
  {
    if o.Some? {
      ghost var b := os.buffer;
      WriteHead(number, o.value.cachedSize, os);
      WriteMetadata(o.value, os);
      Associative(b, Tag(number, 2) + VarintBytes(o.value.cachedSize), EncodeMetadata(o.value));
    }
  }

  method WriteClient(c: Client, os: CodedOutputStream)
    modifies os
    ensures os.buffer == old(os.buffer) + WrittenClient(c)
  {
    ghost var b := os.buffer;
    WriteOptNumber(1, c.index, os);
    WriteOptMetadata(2, c.metadata, os);
    Associative(b, FieldsBytes(OptVarint(1, c.index)), WrittenOptMetadata(2, c.metadata));
  }

  method WriteOptClient(number: nat, o: Option<Client>, os: CodedOutputStream)
    modifies os
    ensures os.buffer == old(os.buffer) + WrittenOptClient(number, o)
  {
    if o.Some? {
      ghost var b := os.buffer;
      WriteHead(number, o.value.cachedSize, os);
      WriteClient(o.value, os);
      Associative(b, Tag(number, 2) + VarintBytes(o.value.cachedSize), WrittenClient(o.value));
    }
  }

  method WriteRepeated(r: Result, os: CodedOutputStream)
    modifies os
    ensures os.buffer == old(os.buffer) + WrittenMessage(3, r.cachedSize, WrittenResult(r))
  {
    ghost var b := os.buffer;
    WriteHead(3, r.cachedSize, os);
    WriteResult(r, os);
    Associative(b, Tag(3, 2) + VarintBytes(r.cachedSize), WrittenResult(r));
  }

  method WriteResults(rs: seq<Result>, os: CodedOutputStream)
    modifies os
    ensures os.buffer == old(os.buffer) + WrittenResults(rs)
  {
    ghost var b := os.buffer;
    for i := 0 to |rs|
      invariant os.buffer == b + WrittenResults(rs[..i])
    {
      WriteRepeated(rs[i], os);
      NextWritten(rs, i);
      Associative(b, WrittenResults(rs[..i]), WrittenMessage(3, rs[i].cachedSize, WrittenResult(rs[i])));
    }
    assert rs[..|rs|] == rs;
  }

  lemma {:induction false} NextWritten(rs: seq<Result>, i: nat)
    requires i < |rs|
    ensures WrittenResults(rs[..i + 1])
         == WrittenResults(rs[..i]) + WrittenMessage(3, rs[i].cachedSize, WrittenResult(rs[i]))
  {
    assert rs[..i + 1][..i] == rs[..i] && rs[..i + 1][i] == rs[i];
  }

  /** The writing pass: it appends exactly what the stored sizes dictate. */
  method WriteTaskResult(t: TaskResult, os: CodedOutputStream)
    modifies os
    ensures os.buffer == old(os.buffer) + WrittenTaskResult(t)
  {
    ghost var b := os.buffer;
    WriteOptNumber(1, t.taskId, os);
    WriteOptClient(2, t.client, os);
    WriteResults(t.resultList, os);
    WriteOptNumber(4, if t.isFinished != false then 1 else 0, os);
    BehindFour(b, FieldsBytes(OptVarint(1, t.taskId)), WrittenOptClient(2, t.client), WrittenResults(t.resultList),
               FieldsBytes(OptVarint(4, if t.isFinished then 1 else 0)));
  }

  // ----- both passes: `write_to_bytes` -----

  /** Encodes a task result; `size` is what the size pass returned. Below 4 GiB the output is the
      encoding and its length is the size; beyond, no u32 could hold the length. */
  method TaskResultToBytes(t: TaskResult) returns (bytes: seq<byte>, size: u32)
    ensures |EncodeTaskResult(t)| < TWO32 ==> bytes == EncodeTaskResult(t) && |bytes| == size
    ensures |EncodeTaskResult(t)| < TWO32 ==>
              bytes == Number(0x08, t.taskId)
                       + (if t.client.None? then [] else Counted(0x12, EncodeClient(t.client.value)))
                       + AllCounted(0x1A, t.resultList)
                       + (if t.isFinished then [0x20, 0x01] else [])
  {
    var sized := SizeTaskResult(t);
    size := sized.cachedSize;
    var os := new CodedOutputStream();
    WriteTaskResult(sized, os);
    bytes := os.buffer;
    if |EncodeTaskResult(t)| < TWO32 {
      TaskResultLayout(t);
      SameTaskResultBytes(t, sized);
      TaskResultWritten(sized);
    }
  }

  method PayloadToBytes(p: PingPayload) returns (bytes: seq<byte>, size: u32)
    ensures |EncodePayload(p)| < TWO32 ==> bytes == EncodePayload(p) && |bytes| == size
    ensures |EncodePayload(p)| < TWO32 ==>
              bytes == Number(0x08, p.taskId) + Number(0x10, p.transmitTime)
                       + AddressAt(0x1A, p.sourceAddress) + AddressAt(0x22, p.destinationAddress)
  {
    var sized := SizePayload(p);
    size := sized.cachedSize;
    var os := new CodedOutputStream();
    WritePayload(sized, os);
    bytes := os.buffer;
    if |EncodePayload(p)| < TWO32 {
      PayloadLayout(p);
      SamePayloadBytes(p, sized);
      PayloadWritten(sized);
    }
  }
}
