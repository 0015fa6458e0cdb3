// The decoder's methods: `merge_from` of every message, reading from one stream with nested limits.
module Decoder {
  import opened Common
  import opened Wire
  import opened Schema

  /** A stream over a buffer; a nested message is read by lowering `limit` to its end. */
  class CodedInputStream {
    const buffer: seq<byte>
    var pos: nat
    var limit: nat

    constructor (buffer: seq<byte>)
      ensures Valid() && Rest() == buffer
    {
      this.buffer := buffer;
      pos, limit := 0, |buffer|;
    }

    ghost predicate Valid()
      reads this
    {
      pos <= limit <= |buffer|
    }

    /** What can still be read. */
    function Rest(): (bs: seq<byte>)
      requires pos <= limit <= |buffer|
      reads this
      ensures |bs| == limit - pos
    {
      buffer[pos..limit]
    }

    /** Moves to where a suffix of the rest begins. */
    method MoveTo(suffix: seq<byte>)
      requires Valid() && |suffix| <= |Rest()| && suffix == Rest()[|Rest()| - |suffix|..]
      modifies this`pos
      ensures Valid() && Rest() == suffix
    {
      pos := limit - |suffix|;
    }

    /** Field number and wire type. */
    method ReadTag() returns (r: Option<(nat, nat)>)
      requires Valid()
      modifies this`pos
      ensures Valid()
      ensures r.None? ==> ReadField(old(Rest())).None?
      ensures r.Some? ==> |Rest()| < |old(Rest())|
      ensures r.Some? ==> ReadField(old(Rest())) == ReadValue(r.value.0, r.value.1, Rest())
    {
      var t := ReadVarint(Rest());
      if t.None? || TagNumber(t.value.0) == 0 { return None; }
      FieldFromTag(Rest(), t.value.0, t.value.1);
      MoveTo(t.value.1);
      r := Some((TagNumber(t.value.0), TagWireType(t.value.0)));
    }

    method ReadNumber() returns (r: Option<u64>)
      requires Valid()
      modifies this`pos
      ensures Valid()
      ensures r.None? ==> ReadVarint(old(Rest())).None?
      ensures r.Some? ==> ReadVarint(old(Rest())) == Some((r.value, Rest()))
    {
      var v := ReadVarint(Rest());
      if v.None? { return None; }
      MoveTo(v.value.1);
      r := Some(v.value.0);
    }

    /** Skips the value of an unknown field. */
    method Skip(number: nat, wireType: nat) returns (ok: bool)
      requires Valid()
      modifies this`pos
      ensures Valid()
      ensures ok <==> ReadValue(number, wireType, old(Rest())).Some?
      ensures ok ==> Rest() == ReadValue(number, wireType, old(Rest())).value.1
    {
      var v := ReadValue(number, wireType, Rest());
      ok := v.Some?;
      if ok { MoveTo(v.value.1); }
    }

    method ReadBytes(number: nat) returns (r: Option<seq<byte>>)
      requires Valid()
      modifies this`pos
      ensures Valid()
      ensures r.None? ==> ReadValue(number, 2, old(Rest())).None?
      ensures r.Some? ==> ReadValue(number, 2, old(Rest())) == Some((Len(number, r.value), Rest()))
    {
      var v := ReadValue(number, 2, Rest());
      if v.None? { return None; }
      MoveTo(v.value.1);
      r := Some(v.value.0.payload);
    }

    /** Reads the length of a nested message and lowers the limit to its end; returns the old limit. */
    method Enter(number: nat) returns (r: Option<nat>)
      requires Valid()
      modifies this
      ensures Valid()
      ensures r.None? ==> ReadValue(number, 2, old(Rest())).None? && limit == old(limit)
      ensures r.Some? ==> r.value == old(limit) && limit <= r.value
      ensures r.Some? ==> ReadValue(number, 2, old(Rest())) == Some((Len(number, Rest()), buffer[limit..r.value]))
    {
      var v := ReadVarint(Rest());
      if v.None? || |v.value.1| < Low32(v.value.0) { return None; }
      MoveTo(v.value.1);
      Cut(buffer, pos, limit, Low32(v.value.0));
      r := Some(limit);
      limit := pos + Low32(v.value.0);
    }

    /** Leaves a nested message that has been read to its end. */
    method Leave(outer: nat)
      requires Valid() && pos == limit <= outer <= |buffer|
      modifies this`limit
      ensures Valid() && limit == outer && Rest() == buffer[old(limit)..outer]
    {
      limit := outer;
    }
  }

  lemma {:induction false} Cut(buffer: seq<byte>, pos: nat, limit: nat, n: nat)
    requires pos + n <= limit <= |buffer|
    ensures buffer[pos..limit][..n] == buffer[pos..pos + n] && buffer[pos..limit][n..] == buffer[pos + n..limit]
  {
  }

  /** The message a field of message type holds, given how to decode it. */
  function Inside<M>(decode: seq<byte> -> Option<M>, o: Option<(Field, seq<byte>)>): Option<M> {
    if o.Some? && o.value.0.Len? then decode(o.value.0.payload) else None
  }

  /** What a message becomes by the next field, given the dispatch on field numbers. */
  function Stepped<M>(step: (M, Field) -> Option<M>, m: M, o: Option<(Field, seq<byte>)>): Option<M> {
    if o.None? then None else step(m, o.value.0)
  }

  // ----- Address -----

  method ReadAddressField(a: Address, number: nat, wireType: nat, input: CodedInputStream)
    returns (r: Option<Address>)
    requires input.Valid()
    modifies input
    ensures input.Valid()
    ensures r == Stepped(AddressStep, a, ReadValue(number, wireType, old(input.Rest())))
    ensures r.Some? ==> input.limit == old(input.limit)
    ensures r.Some? ==> input.Rest() == ReadValue(number, wireType, old(input.Rest())).value.1
  {
    if number == 1 {
      if wireType != 0 { return None; }
      var v := input.ReadNumber();
      if v.None? { return None; }
      r := Some(a.(value := V4(Low32(v.value))));
    } else if number == 2 {
      if wireType != 2 { return None; }
      var b := input.ReadBytes(number);
      if b.None? { return None; }
      r := Some(a.(value := V6(b.value)));
    } else {
      var ok := input.Skip(number, wireType);
      r := if ok then Some(a) else None;
    }
  }

  method MergeAddress(input: CodedInputStream) returns (r: Option<Address>)
    requires input.Valid()
    modifies input
    ensures input.Valid()
    ensures r == DecodeAddress(old(input.Rest()))
    ensures r.Some? ==> input.pos == input.limit == old(input.limit)
  {
    var a := NEW_ADDRESS;
    while input.pos < input.limit
      invariant input.Valid() && input.limit == old(input.limit)
      invariant Merge(AddressStep, a, input.Rest()) == DecodeAddress(old(input.Rest()))
      decreases |input.Rest()|
    {
      var tag := input.ReadTag();
      if tag.None? { return None; }
      var next := ReadAddressField(a, tag.value.0, tag.value.1, input);
      if next.None? { return None; }
      a := next.value;
    }
    r := Some(a);
  }

  /** A nested message: its length, then its fields up to that limit. */
  method ReadAddress(number: nat, wireType: nat, input: CodedInputStream) returns (r: Option<Address>)
    requires input.Valid()
    modifies input
    ensures input.Valid()
    ensures r == Inside(DecodeAddress, ReadValue(number, wireType, old(input.Rest())))
    ensures r.Some? ==> input.limit == old(input.limit)
    ensures r.Some? ==> input.Rest() == ReadValue(number, wireType, old(input.Rest())).value.1
  {
    if wireType != 2 { return None; }
    var outer := input.Enter(number);
    if outer.None? { return None; }
    r := MergeAddress(input);
    if r.Some? { input.Leave(outer.value); }
  }

  // ----- Payload -----

  method ReadPayloadField(p: PingPayload, number: nat, wireType: nat, input: CodedInputStream)
    returns (r: Option<PingPayload>)
    requires input.Valid()
    modifies input
    ensures input.Valid()
    ensures r == Stepped(PayloadStep, p, ReadValue(number, wireType, old(input.Rest())))
    ensures r.Some? ==> input.limit == old(input.limit)
    ensures r.Some? ==> input.Rest() == ReadValue(number, wireType, old(input.Rest())).value.1
  {
    if number == 1 {
      if wireType != 0 { return None; }
      var v := input.ReadNumber();
      if v.None? { return None; }
      r := Some(p.(taskId := Low32(v.value)));
    } else if number == 2 {
      if wireType != 0 { return None; }
      var v := input.ReadNumber();
      if v.None? { return None; }
      r := Some(p.(transmitTime := v.value));
    } else if number == 3 {
      var v := ReadAddress(number, wireType, input);
      if v.None? { return None; }
      r := Some(p.(sourceAddress := v));
    } else if number == 4 {
      var v := ReadAddress(number, wireType, input);
      if v.None? { return None; }
      r := Some(p.(destinationAddress := v));
    } else {
      var ok := input.Skip(number, wireType);
      r := if ok then Some(p) else None;
    }
  }

  method MergePayload(input: CodedInputStream) returns (r: Option<PingPayload>)
    requires input.Valid()
    modifies input
    ensures input.Valid()
    ensures r == DecodePayload(old(input.Rest()))
    ensures r.Some? ==> input.pos == input.limit == old(input.limit)
  {
    var p := NEW_PAYLOAD;
    while input.pos < input.limit
      invariant input.Valid() && input.limit == old(input.limit)
      invariant Merge(PayloadStep, p, input.Rest()) == DecodePayload(old(input.Rest()))
      decreases |input.Rest()|
    {
      var tag := input.ReadTag();
      if tag.None? { return None; }
      var next := ReadPayloadField(p, tag.value.0, tag.value.1, input);
      if next.None? { return None; }
      p := next.value;
    }
    r := Some(p);
  }

  /** A nested message: its length, then its fields up to that limit. */
  method ReadPayload(number: nat, wireType: nat, input: CodedInputStream) returns (r: Option<PingPayload>)
    requires input.Valid()
    modifies input
    ensures input.Valid()
    ensures r == Inside(DecodePayload, ReadValue(number, wireType, old(input.Rest())))
    ensures r.Some? ==> input.limit == old(input.limit)
    ensures r.Some? ==> input.Rest() == ReadValue(number, wireType, old(input.Rest())).value.1
  {
    if wireType != 2 { return None; }
    var outer := input.Enter(number);
    if outer.None? { return None; }
    r := MergePayload(input);
    if r.Some? { input.Leave(outer.value); }
  }

  // ----- PingResult -----

  method ReadPingResultField(p: PingResult, number: nat, wireType: nat, input: CodedInputStream)
    returns (r: Option<PingResult>)
    requires input.Valid()
    modifies input
    ensures input.Valid()
    ensures r == Stepped(PingResultStep, p, ReadValue(number, wireType, old(input.Rest())))
    ensures r.Some? ==> input.limit == old(input.limit)
    ensures r.Some? ==> input.Rest() == ReadValue(number, wireType, old(input.Rest())).value.1
  {
    if number == 1 {
      var v := ReadAddress(number, wireType, input);
      if v.None? { return None; }
      r := Some(p.(sourceAddress := v));
    } else if number == 2 {
      var v := ReadAddress(number, wireType, input);
      if v.None? { return None; }
      r := Some(p.(destinationAddress := v));
    } else if number == 3 {
      if wireType != 0 { return None; }
      var v := input.ReadNumber();
      if v.None? { return None; }
      r := Some(p.(receiveTime := v.value));
    } else if number == 4 {
      var v := ReadPayload(number, wireType, input);
      if v.None? { return None; }
      r := Some(p.(payload := v));
    } else if number == 5 {
      if wireType != 0 { return None; }
      var v := input.ReadNumber();
      if v.None? { return None; }
      r := Some(p.(ttl := Low32(v.value)));
    } else {
      var ok := input.Skip(number, wireType);
      r := if ok then Some(p) else None;
    }
  }

  method MergePingResult(input: CodedInputStream) returns (r: Option<PingResult>)
    requires input.Valid()
    modifies input
    ensures input.Valid()
    ensures r == DecodePingResult(old(input.Rest()))
    ensures r.Some? ==> input.pos == input.limit == old(input.limit)
  {
    var p := NEW_PING_RESULT;
    while input.pos < input.limit
      invariant input.Valid() && input.limit == old(input.limit)
      invariant Merge(PingResultStep, p, input.Rest()) == DecodePingResult(old(input.Rest()))
      decreases |input.Rest()|
    {
      var tag := input.ReadTag();
      if tag.None? { return None; }
      var next := ReadPingResultField(p, tag.value.0, tag.value.1, input);
      if next.None? { return None; }
      p := next.value;
    }
    r := Some(p);
  }

  /** A nested message: its length, then its fields up to that limit. */
  method ReadPingResult(number: nat, wireType: nat, input: CodedInputStream) returns (r: Option<PingResult>)
    requires input.Valid()
    modifies input
    ensures input.Valid()
    ensures r == Inside(DecodePingResult, ReadValue(number, wireType, old(input.Rest())))
    ensures r.Some? ==> input.limit == old(input.limit)
    ensures r.Some? ==> input.Rest() == ReadValue(number, wireType, old(input.Rest())).value.1
  {
    if wireType != 2 { return None; }
    var outer := input.Enter(number);
    if outer.None? { return None; }
    r := MergePingResult(input);
    if r.Some? { input.Leave(outer.value); }
  }

  // ----- Result -----

  method ReadResultField(m: Result, number: nat, wireType: nat, input: CodedInputStream)
    returns (r: Option<Result>)
    requires input.Valid()
    modifies input
    ensures input.Valid()
    ensures r == Stepped(ResultStep, m, ReadValue(number, wireType, old(input.Rest())))
    ensures r.Some? ==> input.limit == old(input.limit)
    ensures r.Some? ==> input.Rest() == ReadValue(number, wireType, old(input.Rest())).value.1
  {
    if number == 1 {
      var v := ReadPingResult(number, wireType, input);
      if v.None? { return None; }
      r := Some(m.(ping := v));
    } else {
      var ok := input.Skip(number, wireType);
      r := if ok then Some(m) else None;
    }
  }

  method MergeResult(input: CodedInputStream) returns (r: Option<Result>)
    requires input.Valid()
    modifies input
    ensures input.Valid()
    ensures r == DecodeResult(old(input.Rest()))
    ensures r.Some? ==> input.pos == input.limit == old(input.limit)
  {
    var m := NEW_RESULT;
    while input.pos < input.limit
      invariant input.Valid() && input.limit == old(input.limit)
      invariant Merge(ResultStep, m, input.Rest()) == DecodeResult(old(input.Rest()))
      decreases |input.Rest()|
    {
      var tag := input.ReadTag();
      if tag.None? { return None; }
      var next := ReadResultField(m, tag.value.0, tag.value.1, input);
      if next.None? { return None; }
      m := next.value;
    }
    r := Some(m);
  }

  /** A nested message: its length, then its fields up to that limit. */
  method ReadResult(number: nat, wireType: nat, input: CodedInputStream) returns (r: Option<Result>)
    requires input.Valid()
    modifies input
    ensures input.Valid()
    ensures r == Inside(DecodeResult, ReadValue(number, wireType, old(input.Rest())))
    ensures r.Some? ==> input.limit == old(input.limit)
    ensures r.Some? ==> input.Rest() == ReadValue(number, wireType, old(input.Rest())).value.1
  {
    if wireType != 2 { return None; }
    var outer := input.Enter(number);
    if outer.None? { return None; }
    r := MergeResult(input);
    if r.Some? { input.Leave(outer.value); }
  }

  // ----- Metadata -----

  method ReadMetadataField(m: Metadata, number: nat, wireType: nat, input: CodedInputStream)
    returns (r: Option<Metadata>)
    requires input.Valid()
    modifies input
    ensures input.Valid()
    ensures r == Stepped(MetadataStep, m, ReadValue(number, wireType, old(input.Rest())))
    ensures r.Some? ==> input.limit == old(input.limit)
    ensures r.Some? ==> input.Rest() == ReadValue(number, wireType, old(input.Rest())).value.1
  {
    if number == 1 {
      if wireType != 2 { return None; }
      var b := input.ReadBytes(number);
      if b.None? { return None; }
      r := Some(m.(hostname := b.value));
    } else if number == 2 {
      if wireType != 2 { return None; }
      var b := input.ReadBytes(number);
      if b.None? { return None; }
      r := Some(m.(version := b.value));
    } else {
      var ok := input.Skip(number, wireType);
      r := if ok then Some(m) else None;
    }
  }

  method MergeMetadata(input: CodedInputStream) returns (r: Option<Metadata>)
    requires input.Valid()
    modifies input
    ensures input.Valid()
    ensures r == DecodeMetadata(old(input.Rest()))
    ensures r.Some? ==> input.pos == input.limit == old(input.limit)
  {
    var m := NEW_METADATA;
    while input.pos < input.limit
      invariant input.Valid() && input.limit == old(input.limit)
      invariant Merge(MetadataStep, m, input.Rest()) == DecodeMetadata(old(input.Rest()))
      decreases |input.Rest()|
    {
      var tag := input.ReadTag();
      if tag.None? { return None; }
      var next := ReadMetadataField(m, tag.value.0, tag.value.1, input);
      if next.None? { return None; }
      m := next.value;
    }
    r := Some(m);
  }

  /** A nested message: its length, then its fields up to that limit. */
  method ReadMetadata(number: nat, wireType: nat, input: CodedInputStream) returns (r: Option<Metadata>)
    requires input.Valid()
    modifies input
    ensures input.Valid()
    ensures r == Inside(DecodeMetadata, ReadValue(number, wireType, old(input.Rest())))
    ensures r.Some? ==> input.limit == old(input.limit)
    ensures r.Some? ==> input.Rest() == ReadValue(number, wireType, old(input.Rest())).value.1
  {
    if wireType != 2 { return None; }
    var outer := input.Enter(number);
    if outer.None? { return None; }
    r := MergeMetadata(input);
    if r.Some? { input.Leave(outer.value); }
  }

  // ----- Client -----

  method ReadClientField(c: Client, number: nat, wireType: nat, input: CodedInputStream)
    returns (r: Option<Client>)
    requires input.Valid()
    modifies input
    ensures input.Valid()
    ensures r == Stepped(ClientStep, c, ReadValue(number, wireType, old(input.Rest())))
    ensures r.Some? ==> input.limit == old(input.limit)
    ensures r.Some? ==> input.Rest() == ReadValue(number, wireType, old(input.Rest())).value.1
  {
    if number == 1 {
      if wireType != 0 { return None; }
      var v := input.ReadNumber();
      if v.None? { return None; }
      r := Some(c.(index := Low32(v.value)));
    } else if number == 2 {
      var v := ReadMetadata(number, wireType, input);
      if v.None? { return None; }
      r := Some(c.(metadata := v));
    } else {
      var ok := input.Skip(number, wireType);
      r := if ok then Some(c) else None;
    }
  }

  method MergeClient(input: CodedInputStream) returns (r: Option<Client>)
    requires input.Valid()
    modifies input
    ensures input.Valid()
    ensures r == DecodeClient(old(input.Rest()))
    ensures r.Some? ==> input.pos == input.limit == old(input.limit)
  {
    var c := NEW_CLIENT;
    while input.pos < input.limit
      invariant input.Valid() && input.limit == old(input.limit)
      invariant Merge(ClientStep, c, input.Rest()) == DecodeClient(old(input.Rest()))
      decreases |input.Rest()|
    {
      var tag := input.ReadTag();
      if tag.None? { return None; }
      var next := ReadClientField(c, tag.value.0, tag.value.1, input);
      if next.None? { return None; }
      c := next.value;
    }
    r := Some(c);
  }

  /** A nested message: its length, then its fields up to that limit. */
  method ReadClient(number: nat, wireType: nat, input: CodedInputStream) returns (r: Option<Client>)
    requires input.Valid()
    modifies input
    ensures input.Valid()
    ensures r == Inside(DecodeClient, ReadValue(number, wireType, old(input.Rest())))
    ensures r.Some? ==> input.limit == old(input.limit)
    ensures r.Some? ==> input.Rest() == ReadValue(number, wireType, old(input.Rest())).value.1
  {
    if wireType != 2 { return None; }
    var outer := input.Enter(number);
    if outer.None? { return None; }
    r := MergeClient(input);
    if r.Some? { input.Leave(outer.value); }
  }

  // ----- TaskResult -----

  method ReadTaskResultField(t: TaskResult, number: nat, wireType: nat, input: CodedInputStream)
    returns (r: Option<TaskResult>)
    requires input.Valid()
    modifies input
    ensures input.Valid()
    ensures r == Stepped(TaskResultStep, t, ReadValue(number, wireType, old(input.Rest())))
    ensures r.Some? ==> input.limit == old(input.limit)
    ensures r.Some? ==> input.Rest() == ReadValue(number, wireType, old(input.Rest())).value.1
  {
    if number == 1 {
      if wireType != 0 { return None; }
      var v := input.ReadNumber();
      if v.None? { return None; }
      r := Some(t.(taskId := Low32(v.value)));
    } else if number == 2 {
      var v := ReadClient(number, wireType, input);
      if v.None? { return None; }
      r := Some(t.(client := v));
    } else if number == 3 {
      var v := ReadResult(number, wireType, input);
      if v.None? { return None; }
      r := Some(t.(resultList := t.resultList + [v.value]));
    } else if number == 4 {
      if wireType != 0 { return None; }
      var v := input.ReadNumber();
      if v.None? { return None; }
      r := Some(t.(isFinished := Low32(v.value) != 0));
    } else {
      var ok := input.Skip(number, wireType);
      r := if ok then Some(t) else None;
    }
  }

  method MergeTaskResult(input: CodedInputStream) returns (r: Option<TaskResult>)
    requires input.Valid()
    modifies input
    ensures input.Valid()
    ensures r == DecodeTaskResult(old(input.Rest()))
    ensures r.Some? ==> input.pos == input.limit == old(input.limit)
  {
    var t := NEW_TASK_RESULT;
    while input.pos < input.limit
      invariant input.Valid() && input.limit == old(input.limit)
      invariant Merge(TaskResultStep, t, input.Rest()) == DecodeTaskResult(old(input.Rest()))
      decreases |input.Rest()|
    {
      var tag := input.ReadTag();
      if tag.None? { return None; }
      var next := ReadTaskResultField(t, tag.value.0, tag.value.1, input);
      if next.None? { return None; }
      t := next.value;
    }
    r := Some(t);
  }

  // ----- `parse_from_bytes` -----

  method TaskResultFromBytes(bytes: seq<byte>) returns (r: Option<TaskResult>)
    ensures r == DecodeTaskResult(bytes)
  {
    var input := new CodedInputStream(bytes);
    r := MergeTaskResult(input);
  }

  method PayloadFromBytes(bytes: seq<byte>) returns (r: Option<PingPayload>)
    ensures r == DecodePayload(bytes)
  {
    var input := new CodedInputStream(bytes);
    r := MergePayload(input);
  }
}
