// The protobuf messages of src/schema/verfploeter.rs: their values, encodings and decodings.
module Schema {
  import opened Common
  import opened Wire

  // ----- messages; `cachedSize` is what the size pass leaves for the writing pass -----

  datatype AddressValue = Unset | V4(v4: u32) | V6(v6: seq<byte>)

  datatype Address = Address(value: AddressValue, cachedSize: u32)

  datatype PingPayload = PingPayload(
    taskId: u32,
    transmitTime: u64,
    sourceAddress: Option<Address>,
    destinationAddress: Option<Address>,
    cachedSize: u32)

  datatype PingResult = PingResult(
    sourceAddress: Option<Address>,
    destinationAddress: Option<Address>,
    receiveTime: u64,
    payload: Option<PingPayload>,
    ttl: u32,
    cachedSize: u32)

  datatype Result = Result(ping: Option<PingResult>, cachedSize: u32)

  datatype Metadata = Metadata(hostname: seq<byte>, version: seq<byte>, cachedSize: u32)

  datatype Client = Client(index: u32, metadata: Option<Metadata>, cachedSize: u32)

  datatype TaskResult = TaskResult(
    taskId: u32,
    client: Option<Client>,
    resultList: seq<Result>,
    isFinished: bool,
    cachedSize: u32)

  /** A request to ping; its encoding is not part of this model. */
  datatype Ping = Ping(sourceAddress: Option<Address>, destinationAddresses: seq<Address>)

  datatype Task = Task(taskId: u32, ping: Option<Ping>)

  const NEW_ADDRESS := Address(Unset, 0)
  const NEW_PAYLOAD := PingPayload(0, 0, None, None, 0)
  const NEW_PING_RESULT := PingResult(None, None, 0, None, 0, 0)
  const NEW_RESULT := Result(None, 0)
  const NEW_METADATA := Metadata([], [], 0)
  const NEW_CLIENT := Client(0, None, 0)
  const NEW_TASK_RESULT := TaskResult(0, None, [], false, 0)

  // ----- bare messages: == on messages ignores the cached sizes -----

  function BareAddress(a: Address): Address {
    a.(cachedSize := 0)
  }

  function BareOptAddress(o: Option<Address>): Option<Address> {
    if o.None? then None else Some(BareAddress(o.value))
  }

  function BarePayload(p: PingPayload): PingPayload {
    PingPayload(p.taskId, p.transmitTime, BareOptAddress(p.sourceAddress), BareOptAddress(p.destinationAddress), 0)
  }

  function BareOptPayload(o: Option<PingPayload>): Option<PingPayload> {
    if o.None? then None else Some(BarePayload(o.value))
  }

  function BarePingResult(p: PingResult): PingResult {
    PingResult(BareOptAddress(p.sourceAddress), BareOptAddress(p.destinationAddress), p.receiveTime,
               BareOptPayload(p.payload), p.ttl, 0)
  }

  function BareResult(r: Result): Result {
    Result(if r.ping.None? then None else Some(BarePingResult(r.ping.value)), 0)
  }

  function BareMetadata(m: Metadata): Metadata {
    m.(cachedSize := 0)
  }

  function BareClient(c: Client): Client {
    Client(c.index, if c.metadata.None? then None else Some(BareMetadata(c.metadata.value)), 0)
  }

  function BareResults(rs: seq<Result>): (bs: seq<Result>)
    ensures |bs| == |rs|
    ensures forall i :: 0 <= i < |rs| ==> bs[i] == BareResult(rs[i])
  {
    if rs == [] then [] else [BareResult(rs[0])] + BareResults(rs[1..])
  }

  function BareTaskResult(t: TaskResult): TaskResult {
    TaskResult(t.taskId, if t.client.None? then None else Some(BareClient(t.client.value)),
               BareResults(t.resultList), t.isFinished, 0)
  }

  // ----- equality of messages, field by field: everything but the cached sizes -----

  ghost predicate EqualAddress(a: Address, b: Address) {
    a.value == b.value
  }

  ghost predicate EqualOptAddress(a: Option<Address>, b: Option<Address>) {
    a.Some? == b.Some? && (a.Some? ==> EqualAddress(a.value, b.value))
  }

  ghost predicate EqualPayload(p: PingPayload, q: PingPayload) {
    && p.taskId == q.taskId && p.transmitTime == q.transmitTime
    && EqualOptAddress(p.sourceAddress, q.sourceAddress)
    && EqualOptAddress(p.destinationAddress, q.destinationAddress)
  }

  ghost predicate EqualPingResult(p: PingResult, q: PingResult) {
    && EqualOptAddress(p.sourceAddress, q.sourceAddress)
    && EqualOptAddress(p.destinationAddress, q.destinationAddress)
    && p.receiveTime == q.receiveTime && p.ttl == q.ttl
    && p.payload.Some? == q.payload.Some?
    && (p.payload.Some? ==> EqualPayload(p.payload.value, q.payload.value))
  }

  ghost predicate EqualResult(r: Result, s: Result) {
    r.ping.Some? == s.ping.Some? && (r.ping.Some? ==> EqualPingResult(r.ping.value, s.ping.value))
  }

  ghost predicate EqualMetadata(m: Metadata, n: Metadata) {
    m.hostname == n.hostname && m.version == n.version
  }

  ghost predicate EqualClient(c: Client, d: Client) {
    && c.index == d.index && c.metadata.Some? == d.metadata.Some?
    && (c.metadata.Some? ==> EqualMetadata(c.metadata.value, d.metadata.value))
  }

  ghost predicate EqualTaskResult(t: TaskResult, u: TaskResult) {
    && t.taskId == u.taskId && t.isFinished == u.isFinished
    && t.client.Some? == u.client.Some?
    && (t.client.Some? ==> EqualClient(t.client.value, u.client.value))
    && |t.resultList| == |u.resultList|
    && forall i :: 0 <= i < |t.resultList| ==> EqualResult(t.resultList[i], u.resultList[i])
  }

  /** Bare messages coincide exactly when the messages are equal. */
  lemma {:induction false} BarePayloadEqual(p: PingPayload, q: PingPayload)
    ensures BarePayload(p) == BarePayload(q) <==> EqualPayload(p, q)
  {
  }

  lemma {:induction false} BareResultEqual(r: Result, s: Result)
    ensures BareResult(r) == BareResult(s) <==> EqualResult(r, s)
  {
    if r.ping.Some? && s.ping.Some? && r.ping.value.payload.Some? && s.ping.value.payload.Some? {
      BarePayloadEqual(r.ping.value.payload.value, s.ping.value.payload.value);
    }
  }

  lemma {:induction false} BareClientEqual(c: Client, d: Client)
    ensures BareClient(c) == BareClient(d) <==> EqualClient(c, d)
  {
  }

  lemma {:induction false} BareResultsEqual(rs: seq<Result>, ss: seq<Result>)
    ensures BareResults(rs) == BareResults(ss) <==>
              |rs| == |ss| && forall i :: 0 <= i < |rs| ==> EqualResult(rs[i], ss[i])
  {
    if |rs| == |ss| {
      forall i | 0 <= i < |rs| ensures BareResults(rs)[i] == BareResults(ss)[i] <==> EqualResult(rs[i], ss[i]) {
        BareResultEqual(rs[i], ss[i]);
      }
    }
  }

  lemma {:induction false} BareTaskResultEqual(t: TaskResult, u: TaskResult)
    ensures BareTaskResult(t) == BareTaskResult(u) <==> EqualTaskResult(t, u)
  {
    if t.client.Some? && u.client.Some? { BareClientEqual(t.client.value, u.client.value); }
    BareResultsEqual(t.resultList, u.resultList);
  }

  /** A bare message is equal to the message itself. */
  lemma {:induction false} BareIsEqual(t: TaskResult)
    ensures EqualTaskResult(BareTaskResult(t), t)
  {
    if t.client.Some? { BareClientIsEqual(t.client.value); }
    forall i | 0 <= i < |t.resultList| ensures EqualResult(BareTaskResult(t).resultList[i], t.resultList[i]) {
      BareResultIsEqual(t.resultList[i]);
    }
  }

  lemma {:induction false} BareClientIsEqual(c: Client)
    ensures EqualClient(BareClient(c), c)
  {
  }

  lemma {:induction false} BarePayloadIsEqual(p: PingPayload)
    ensures EqualPayload(BarePayload(p), p)
  {
  }

  lemma {:induction false} BareResultIsEqual(r: Result)
    ensures EqualResult(BareResult(r), r)
  {
    if r.ping.Some? && r.ping.value.payload.Some? { BarePayloadIsEqual(r.ping.value.payload.value); }
  }

  // ----- encodings -----

  /** A proto3 number: left out when zero. */
  function OptVarint(number: nat, v: u64): seq<Field> {
    if v == 0 then [] else [Varint(number, v)]
  }

  /** A proto3 string: left out when empty. */
  function OptString(number: nat, s: seq<byte>): seq<Field> {
    if s == [] then [] else [Len(number, s)]
  }

  function AddressFields(a: Address): seq<Field> {
    match a.value
    case Unset => []
    case V4(v) => [Varint(1, v)]
    case V6(b) => [Len(2, b)]
  }

  function EncodeAddress(a: Address): seq<byte> {
    FieldsBytes(AddressFields(a))
  }

  function OptAddress(number: nat, o: Option<Address>): seq<Field> {
    if o.None? then [] else [Len(number, EncodeAddress(o.value))]
  }

  function PayloadFields(p: PingPayload): seq<Field> {
    OptVarint(1, p.taskId) + OptVarint(2, p.transmitTime)
    + OptAddress(3, p.sourceAddress) + OptAddress(4, p.destinationAddress)
  }

  function EncodePayload(p: PingPayload): seq<byte> {
    FieldsBytes(PayloadFields(p))
  }

  function OptPayload(number: nat, o: Option<PingPayload>): seq<Field> {
    if o.None? then [] else [Len(number, EncodePayload(o.value))]
  }

  function PingResultFields(p: PingResult): seq<Field> {
    OptAddress(1, p.sourceAddress) + OptAddress(2, p.destinationAddress)
    + OptVarint(3, p.receiveTime) + OptPayload(4, p.payload) + OptVarint(5, p.ttl)
  }

  function EncodePingResult(p: PingResult): seq<byte> {
    FieldsBytes(PingResultFields(p))
  }

  function ResultFields(r: Result): seq<Field> {
    if r.ping.None? then [] else [Len(1, EncodePingResult(r.ping.value))]
  }

  function EncodeResult(r: Result): seq<byte> {
    FieldsBytes(ResultFields(r))
  }

  function MetadataFields(m: Metadata): seq<Field> {
    OptString(1, m.hostname) + OptString(2, m.version)
  }

  function EncodeMetadata(m: Metadata): seq<byte> {
    FieldsBytes(MetadataFields(m))
  }

  function OptMetadata(number: nat, o: Option<Metadata>): seq<Field> {
    if o.None? then [] else [Len(number, EncodeMetadata(o.value))]
  }

  function ClientFields(c: Client): seq<Field> {
    OptVarint(1, c.index) + OptMetadata(2, c.metadata)
  }

  function EncodeClient(c: Client): seq<byte> {
    FieldsBytes(ClientFields(c))
  }

  function OptClient(number: nat, o: Option<Client>): seq<Field> {
    if o.None? then [] else [Len(number, EncodeClient(o.value))]
  }

  function RepeatedResults(number: nat, rs: seq<Result>): (fs: seq<Field>)
    ensures |fs| == |rs|
    ensures forall i :: 0 <= i < |fs| ==> fs[i] == Len(number, EncodeResult(rs[i]))
  {
    if rs == [] then [] else [Len(number, EncodeResult(rs[0]))] + RepeatedResults(number, rs[1..])
  }

  function TaskResultFields(t: TaskResult): seq<Field> {
    OptVarint(1, t.taskId) + OptClient(2, t.client) + RepeatedResults(3, t.resultList)
    + OptVarint(4, if t.isFinished then 1 else 0)
  }

  function EncodeTaskResult(t: TaskResult): seq<byte> {
    FieldsBytes(TaskResultFields(t))
  }

  // ----- decodings: the dispatch of `merge_from` on the field number -----
  // A known field of the wrong wire type is an error; an unknown field is skipped.

  /** A 32-bit number is read as a varint and cut off. */
  function Low32(v: u64): u32 {
    v % TWO32
  }

  lemma {:induction false} Low32Fits(v: u64)
    requires v < TWO32
    ensures Low32(v) == v
  {
  }

  function AddressStep(a: Address, f: Field): Option<Address> {
    if f.number == 1 then
      if f.Varint? then Some(a.(value := V4(Low32(f.value)))) else None
    else if f.number == 2 then
      if f.Len? then Some(a.(value := V6(f.payload))) else None
    else Some(a)
  }

  function DecodeAddress(bs: seq<byte>): Option<Address> {
    Merge(AddressStep, NEW_ADDRESS, bs)
  }

  function PayloadStep(p: PingPayload, f: Field): Option<PingPayload> {
    if f.number == 1 then
      if f.Varint? then Some(p.(taskId := Low32(f.value))) else None
    else if f.number == 2 then
      if f.Varint? then Some(p.(transmitTime := f.value)) else None
    else if f.number == 3 then
      if f.Len? && DecodeAddress(f.payload).Some? then Some(p.(sourceAddress := DecodeAddress(f.payload))) else None
    else if f.number == 4 then
      if f.Len? && DecodeAddress(f.payload).Some? then Some(p.(destinationAddress := DecodeAddress(f.payload))) else None
    else Some(p)
  }

  function DecodePayload(bs: seq<byte>): Option<PingPayload> {
    Merge(PayloadStep, NEW_PAYLOAD, bs)
  }

  function PingResultStep(p: PingResult, f: Field): Option<PingResult> {
    if f.number == 1 then
      if f.Len? && DecodeAddress(f.payload).Some? then Some(p.(sourceAddress := DecodeAddress(f.payload))) else None
    else if f.number == 2 then
      if f.Len? && DecodeAddress(f.payload).Some? then Some(p.(destinationAddress := DecodeAddress(f.payload))) else None
    else if f.number == 3 then
      if f.Varint? then Some(p.(receiveTime := f.value)) else None
    else if f.number == 4 then
      if f.Len? && DecodePayload(f.payload).Some? then Some(p.(payload := DecodePayload(f.payload))) else None
    else if f.number == 5 then
      if f.Varint? then Some(p.(ttl := Low32(f.value))) else None
    else Some(p)
  }

  function DecodePingResult(bs: seq<byte>): Option<PingResult> {
    Merge(PingResultStep, NEW_PING_RESULT, bs)
  }

  function ResultStep(r: Result, f: Field): Option<Result> {
    if f.number == 1 then
      if f.Len? && DecodePingResult(f.payload).Some? then Some(r.(ping := DecodePingResult(f.payload))) else None
    else Some(r)
  }

  function DecodeResult(bs: seq<byte>): Option<Result> {
    Merge(ResultStep, NEW_RESULT, bs)
  }

  function MetadataStep(m: Metadata, f: Field): Option<Metadata> {
    if f.number == 1 then
      if f.Len? then Some(m.(hostname := f.payload)) else None
    else if f.number == 2 then
      if f.Len? then Some(m.(version := f.payload)) else None
    else Some(m)
  }

  function DecodeMetadata(bs: seq<byte>): Option<Metadata> {
    Merge(MetadataStep, NEW_METADATA, bs)
  }

  function ClientStep(c: Client, f: Field): Option<Client> {
    if f.number == 1 then
      if f.Varint? then Some(c.(index := Low32(f.value))) else None
    else if f.number == 2 then
      if f.Len? && DecodeMetadata(f.payload).Some? then Some(c.(metadata := DecodeMetadata(f.payload))) else None
    else Some(c)
  }

  function DecodeClient(bs: seq<byte>): Option<Client> {
    Merge(ClientStep, NEW_CLIENT, bs)
  }

  function TaskResultStep(t: TaskResult, f: Field): Option<TaskResult> {
    if f.number == 1 then
      if f.Varint? then Some(t.(taskId := Low32(f.value))) else None
    else if f.number == 2 then
      if f.Len? && DecodeClient(f.payload).Some? then Some(t.(client := DecodeClient(f.payload))) else None
    else if f.number == 3 then
      if f.Len? && DecodeResult(f.payload).Some?
      then Some(t.(resultList := t.resultList + [DecodeResult(f.payload).value])) else None
    else if f.number == 4 then
      if f.Varint? then Some(t.(isFinished := Low32(f.value) != 0)) else None
    else Some(t)
  }

  function DecodeTaskResult(bs: seq<byte>): Option<TaskResult> {
    Merge(TaskResultStep, NEW_TASK_RESULT, bs)
  }
}
