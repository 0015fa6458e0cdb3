// The wire format the generated code in src/schema/verfploeter.rs reads and writes: base 128 varints,
// tags and length-delimited records, from the Protocol Buffers "Encoding" specification.
module Wire {
  import opened Common

  // ----- base 128 varints -----

  /** Seven bits a byte, least significant group first, the top bit set on all bytes but the last. */
  function VarintBytes(n: nat): (b: seq<byte>)
    ensures 0 < |b|
  {
    if n < 0x80 then [n] else [0x80 + n % 0x80] + VarintBytes(n / 0x80)
  }

  /** The number made by the groups at the front of bs, and what follows; at most ten bytes are read. */
  function Groups(bs: seq<byte>, limit: nat): (r: Option<(nat, seq<byte>)>)
    ensures r.Some? ==> |r.value.1| < |bs|
    ensures r.Some? ==> r.value.1 == bs[|bs| - |r.value.1|..]
  {
    if bs == [] || limit == 0 then None
    else if bs[0] < 0x80 then Some((bs[0], bs[1..]))
    else
      var r := Groups(bs[1..], limit - 1);
      if r.None? then None else Some((bs[0] - 0x80 + 0x80 * r.value.0, r.value.1))
  }

  /** A varint as a 64-bit number: bits above 64 are dropped. */
  function ReadVarint(bs: seq<byte>): (r: Option<(u64, seq<byte>)>)
    ensures r.Some? ==> |r.value.1| < |bs|
    ensures r.Some? ==> r.value.1 == bs[|bs| - |r.value.1|..]
  {
    var g := Groups(bs, 10);
    if g.None? then None else Some((g.value.0 % TWO64, g.value.1))
  }

  function Pow128(k: nat): (p: nat)
    ensures 1 <= p
  {
    if k == 0 then 1 else 0x80 * Pow128(k - 1)
  }

  /** The number of bytes is the number of seven-bit groups. */
  lemma {:induction false} VarintLength(n: nat, k: nat)
    requires 0 < k
    ensures |VarintBytes(n)| <= k <==> n < Pow128(k)
    decreases k
  {
    if k == 1 {
      assert Pow128(1) == 0x80 * Pow128(0);
    } else if n >= 0x80 {
      VarintLength(n / 0x80, k - 1);
    } else {
      SmallestPower(k);
    }
  }

  lemma {:induction false} SmallestPower(k: nat)
    requires 0 < k
    ensures 0x80 <= Pow128(k)
  {
    if k > 1 { SmallestPower(k - 1); }
  }

  lemma {:induction false} GroupsRoundTrip(n: nat, rest: seq<byte>, limit: nat)
    requires |VarintBytes(n)| <= limit
    ensures Groups(VarintBytes(n) + rest, limit) == Some((n, rest))
    decreases limit
  {
    var bs := VarintBytes(n) + rest;
    if n < 0x80 {
      assert bs[1..] == rest;
    } else {
      GroupsRoundTrip(n / 0x80, rest, limit - 1);
      assert bs[1..] == VarintBytes(n / 0x80) + rest;
    }
  }

  lemma {:induction false} Powers()
    ensures Pow128(1) == 0x80 && Pow128(2) == 0x4000 && Pow128(3) == 0x20_0000 && Pow128(4) == 0x1000_0000
    ensures Pow128(5) == 0x8_0000_0000 && Pow128(6) == 0x400_0000_0000 && Pow128(7) == 0x2_0000_0000_0000
    ensures Pow128(8) == 0x100_0000_0000_0000 && Pow128(9) == 0x8000_0000_0000_0000
    ensures Pow128(10) == 0x40_0000_0000_0000_0000
  {
    assert Pow128(0) == 1;
    assert Pow128(2) == 0x80 * Pow128(1);
    assert Pow128(4) == 0x80 * Pow128(3);
    assert Pow128(6) == 0x80 * Pow128(5);
    assert Pow128(8) == 0x80 * Pow128(7);
    assert Pow128(10) == 0x80 * Pow128(9);
  }

  lemma {:induction false} TenBytes(n: u64)
    ensures |VarintBytes(n)| <= 10
  {
    Powers();
    VarintLength(n, 10);
  }

  /** Every 64-bit number survives the round trip. */
  lemma {:induction false} VarintRoundTrip(n: u64, rest: seq<byte>)
    ensures ReadVarint(VarintBytes(n) + rest) == Some((n, rest))
  {
    TenBytes(n);
    GroupsRoundTrip(n, rest, 10);
    SixtyFourBits(VarintBytes(n) + rest, n, rest);
  }

  lemma {:induction false} SixtyFourBits(bs: seq<byte>, n: u64, rest: seq<byte>)
    requires Groups(bs, 10) == Some((n, rest))
    ensures ReadVarint(bs) == Some((n, rest))
  {
    assert n % TWO64 == n;
  }

  /** The sum of the seven-bit digits b[i] % 128, each times 128^i, over the first k bytes. */
  function DigitSum(b: seq<byte>, k: nat): nat
    requires k <= |b|
  {
    if k == 0 then 0 else DigitSum(b, k - 1) + b[k - 1] % 0x80 * Pow128(k - 1)
  }

  lemma {:induction false} Scaled(x: nat, d: nat, p: nat)
    ensures 0x80 * (x + d * p) == 0x80 * x + d * (0x80 * p)
  {
  }

  /** Taking off the first digit divides by 128. */
  lemma {:induction false} DigitShift(b: seq<byte>, k: nat)
    requires 0 < k <= |b|
    ensures DigitSum(b, k) == b[0] % 0x80 + 0x80 * DigitSum(b[1..], k - 1)
    decreases k
  {
    if k == 1 {
      assert DigitSum(b, 0) == 0 && DigitSum(b[1..], 0) == 0;
      assert DigitSum(b, 1) == b[0] % 0x80 * Pow128(0);
    } else {
      DigitShift(b, k - 1);
      assert b[1..][k - 2] == b[k - 1];
      Scaled(DigitSum(b[1..], k - 2), b[k - 1] % 0x80, Pow128(k - 2));
    }
  }

  lemma {:induction false} FirstDigit(n: nat) returns (q: nat)
    requires n >= 0x80
    ensures q < n && VarintBytes(n)[0] >= 0x80 && VarintBytes(n)[1..] == VarintBytes(q)
    ensures n == VarintBytes(n)[0] % 0x80 + 0x80 * q
  {
    q := n / 0x80;
    assert (0x80 + n % 0x80) % 0x80 == n % 0x80;
  }

  /** "Base 128 Varints": every byte but the last has its top bit set, and the other seven bits of the bytes,
      least significant first, are the digits of the number to base 128. */
  lemma {:induction false} VarintDigits(n: nat)
    ensures var b := VarintBytes(n);
            && (forall i :: 0 <= i < |b| - 1 ==> b[i] >= 0x80)
            && b[|b| - 1] < 0x80
            && n == DigitSum(b, |b|)
    decreases n
  {
    var b := VarintBytes(n);
    DigitShift(b, |b|);
    if n >= 0x80 {
      var q := FirstDigit(n);
      VarintDigits(q);
      assert forall i :: 1 <= i < |b| ==> b[i] == b[1..][i - 1];
    } else {
      assert DigitSum(b[1..], 0) == 0;
    }
  }

  lemma {:induction false} GroupsMore(bs: seq<byte>, limit: nat, n: nat, rest: seq<byte>)
    requires bs != [] && bs[0] >= 0x80 && limit > 0 && Groups(bs[1..], limit - 1) == Some((n, rest))
    ensures Groups(bs, limit) == Some((bs[0] % 0x80 + 0x80 * n, rest))
  {
  }

  lemma {:induction false} GroupsRead(b: seq<byte>, rest: seq<byte>, limit: nat)
    requires 0 < |b| <= limit && b[|b| - 1] < 0x80 && forall i :: 0 <= i < |b| - 1 ==> b[i] >= 0x80
    ensures Groups(b + rest, limit) == Some((DigitSum(b, |b|), rest))
    decreases |b|
  {
    DigitShift(b, |b|);
    if |b| == 1 {
      assert (b + rest)[1..] == rest;
      assert DigitSum(b[1..], 0) == 0;
    } else {
      assert (b + rest)[1..] == b[1..] + rest;
      GroupsRead(b[1..], rest, limit - 1);
      GroupsMore(b + rest, limit, DigitSum(b[1..], |b| - 1), rest);
    }
  }

  /** The reader takes any such string of at most ten bytes, shortest or not, for the number its digits
      make, modulo 2^64, and leaves what follows it. */
  lemma {:induction false} VarintReads(b: seq<byte>, rest: seq<byte>)
    requires 0 < |b| <= 10 && b[|b| - 1] < 0x80 && forall i :: 0 <= i < |b| - 1 ==> b[i] >= 0x80
    ensures ReadVarint(b + rest) == Some((DigitSum(b, |b|) % TWO64, rest))
  {
    GroupsRead(b, rest, 10);
  }

  lemma {:induction false} GroupsFail(bs: seq<byte>, limit: nat)
    ensures Groups(bs, limit).None? <==> forall i :: 0 <= i < |bs| && i < limit ==> bs[i] >= 0x80
    decreases limit
  {
    if bs != [] && limit > 0 && bs[0] >= 0x80 {
      GroupsFail(bs[1..], limit - 1);
      assert forall i :: 1 <= i < |bs| ==> bs[i] == bs[1..][i - 1];
    }
  }

  /** It fails exactly when none of the first ten bytes ends a varint. */
  lemma {:induction false} VarintFails(bs: seq<byte>)
    ensures ReadVarint(bs).None? <==> forall i :: 0 <= i < |bs| && i < 10 ==> bs[i] >= 0x80
  {
    GroupsFail(bs, 10);
  }

  /** The size of a varint as the size pass computes it: by comparing with the powers of 128. */
  function VarintSize(n: u64): (size: nat)
    ensures 1 <= size <= 10
  {
    if n < 0x80 then 1
    else if n < 0x4000 then 2
    else if n < 0x20_0000 then 3
    else if n < 0x1000_0000 then 4
    else if n < 0x8_0000_0000 then 5
    else if n < 0x400_0000_0000 then 6
    else if n < 0x2_0000_0000_0000 then 7
    else if n < 0x100_0000_0000_0000 then 8
    else if n < 0x8000_0000_0000_0000 then 9
    else 10
  }

  /** The size pass predicts the length of every varint. */
  lemma {:induction false} VarintSizeExact(n: u64)
    ensures VarintSize(n) == |VarintBytes(n)|
    ensures n < TWO32 ==> VarintSize(n) <= 5
  {
    Powers();
    var k := VarintSize(n);
    VarintLength(n, k);
    if k > 1 { VarintLength(n, k - 1); }
  }

  // ----- fields: "Message Structure" and "Length-Delimited Records" -----

  /** One record of a message: its field number and its value in one of the four wire types. */
  datatype Field =
    | Varint(number: nat, value: u64)
    | Fixed64(number: nat, bytes: seq<byte>)
    | Len(number: nat, payload: seq<byte>)
    | Fixed32(number: nat, bytes: seq<byte>)
  {
    predicate Valid() {
      && 1 <= number < 0x2000_0000
      && (Fixed64? ==> |bytes| == 8)
      && (Fixed32? ==> |bytes| == 4)
      && (Len? ==> |payload| < TWO32)
    }

    function WireType(): (w: nat)
      ensures w < 8
    {
      match this
      case Varint(_, _) => 0
      case Fixed64(_, _) => 1
      case Len(_, _) => 2
      case Fixed32(_, _) => 5
    }
  }

  function Tag(number: nat, wireType: nat): seq<byte> {
    VarintBytes(8 * number + wireType)
  }

  function ValueBytes(f: Field): seq<byte> {
    match f
    case Varint(_, v) => VarintBytes(v)
    case Fixed64(_, b) => b
    case Len(_, p) => VarintBytes(|p|) + p
    case Fixed32(_, b) => b
  }

  function FieldBytes(f: Field): (b: seq<byte>)
    ensures 0 < |b|
  {
    Tag(f.number, f.WireType()) + ValueBytes(f)
  }

  /** Reads the value of a field whose tag has been read; None for a truncated or unsupported one. */
  function ReadValue(number: nat, wireType: nat, bs: seq<byte>): (r: Option<(Field, seq<byte>)>)
    ensures r.Some? ==> |r.value.1| <= |bs|
    ensures r.Some? ==> r.value.1 == bs[|bs| - |r.value.1|..]
  {
    match wireType
    case 0 =>
      var v := ReadVarint(bs);
      if v.None? then None else Some((Varint(number, v.value.0), v.value.1))
    case 1 =>
      if |bs| < 8 then None else Some((Fixed64(number, bs[..8]), bs[8..]))
    case 2 =>
      var v := ReadVarint(bs);
      if v.None? || |v.value.1| < v.value.0 % TWO32 then None
      else Some((Len(number, v.value.1[..v.value.0 % TWO32]), v.value.1[v.value.0 % TWO32..]))
    case 5 =>
      if |bs| < 4 then None else Some((Fixed32(number, bs[..4]), bs[4..]))
    case _ => None
  }

  function ReadField(bs: seq<byte>): (r: Option<(Field, seq<byte>)>)
    ensures r.Some? ==> |r.value.1| < |bs|
    ensures r.Some? ==> r.value.1 == bs[|bs| - |r.value.1|..]
  {
    var t := ReadVarint(bs);
    if t.None? || TagNumber(t.value.0) == 0 then None
    else ReadValue(TagNumber(t.value.0), TagWireType(t.value.0), t.value.1)
  }

  /** The low three bits of a tag. */
  function TagWireType(tag: u64): nat {
    tag % 8
  }

  /** The field number of a tag, which is a 32-bit varint. */
  function TagNumber(tag: u64): nat {
    tag % TWO32 / 8
  }

  lemma {:induction false} TagParts(number: nat, wireType: nat)
    requires number < 0x2000_0000 && wireType < 8
    ensures TagNumber(8 * number + wireType) == number && TagWireType(8 * number + wireType) == wireType
  {
    var tag := 8 * number + wireType;
    assert tag < TWO32;
    assert tag % TWO32 == tag;
    assert tag / 8 == number;
  }

  lemma {:induction false} ValueRoundTrip(f: Field, rest: seq<byte>)
    requires f.Valid()
    ensures ReadValue(f.number, f.WireType(), ValueBytes(f) + rest) == Some((f, rest))
  {
    match f
    case Varint(_, v) =>
      VarintRoundTrip(v, rest);
    case Fixed64(_, b) =>
      assert (b + rest)[..8] == b && (b + rest)[8..] == rest;
    case Len(n, p) =>
      LenRoundTrip(n, p, rest);
    case Fixed32(_, b) =>
      assert (b + rest)[..4] == b && (b + rest)[4..] == rest;
  }

  lemma {:induction false} LenRoundTrip(number: nat, p: seq<byte>, rest: seq<byte>)
    requires |p| < TWO32
    ensures ReadValue(number, 2, VarintBytes(|p|) + p + rest) == Some((Len(number, p), rest))
  {
    var bs := VarintBytes(|p|) + p + rest;
    assert bs == VarintBytes(|p|) + (p + rest);
    VarintRoundTrip(|p|, p + rest);
    LenValue(number, bs, p, rest);
  }

  lemma {:induction false} LenValue(number: nat, bs: seq<byte>, p: seq<byte>, rest: seq<byte>)
    requires |p| < TWO32
    requires ReadVarint(bs) == Some((|p|, p + rest))
    ensures ReadValue(number, 2, bs) == Some((Len(number, p), rest))
  {
    assert (p + rest)[..|p|] == p && (p + rest)[|p|..] == rest;
  }

  lemma {:induction false} TagRoundTrip(number: nat, wireType: nat, rest: seq<byte>)
    requires 1 <= number < 0x2000_0000 && wireType < 8
    ensures ReadVarint(Tag(number, wireType) + rest) == Some((8 * number + wireType, rest))
  {
    VarintRoundTrip(8 * number + wireType, rest);
  }

  lemma {:induction false} FieldFromTag(bs: seq<byte>, tag: u64, after: seq<byte>)
    requires TagNumber(tag) > 0
    requires ReadVarint(bs) == Some((tag, after))
    ensures ReadField(bs) == ReadValue(TagNumber(tag), TagWireType(tag), after)
  {
  }

  lemma {:induction false} FieldSplit(f: Field, rest: seq<byte>)
    ensures FieldBytes(f) + rest == Tag(f.number, f.WireType()) + (ValueBytes(f) + rest)
  {
  }

  lemma {:induction false} FieldRoundTrip(f: Field, rest: seq<byte>)
    requires f.Valid()
    ensures ReadField(FieldBytes(f) + rest) == Some((f, rest))
  {
    var bs, tag, after := FieldBytes(f) + rest, 8 * f.number + f.WireType(), ValueBytes(f) + rest;
    assert ReadVarint(bs) == Some((tag, after)) by {
      FieldSplit(f, rest);
      TagRoundTrip(f.number, f.WireType(), after);
    }
    TagParts(f.number, f.WireType());
    FieldFromTag(bs, tag, after);
    ValueRoundTrip(f, rest);
  }

  // ----- messages -----

  function FieldsBytes(fs: seq<Field>): seq<byte> {
    if fs == [] then [] else FieldBytes(fs[0]) + FieldsBytes(fs[1..])
  }

  /** What `merge_from` does with a stream: read fields to the end, let each one change the message. */
  function Merge<M>(step: (M, Field) -> Option<M>, m: M, bs: seq<byte>): Option<M>
    decreases |bs|
  {
    if bs == [] then Some(m)
    else
      var f := ReadField(bs);
      if f.None? then None
      else
        var next := step(m, f.value.0);
        if next.None? then None else Merge(step, next.value, f.value.1)
  }

  /** The same on fields that have been parsed. */
  function Apply<M>(step: (M, Field) -> Option<M>, m: M, fs: seq<Field>): Option<M> {
    if fs == [] then Some(m)
    else
      var next := step(m, fs[0]);
      if next.None? then None else Apply(step, next.value, fs[1..])
  }

  ghost predicate AllValid(fs: seq<Field>) {
    forall i :: 0 <= i < |fs| ==> fs[i].Valid()
  }

  /** Merging an encoding is applying the encoded fields one by one. */
  lemma {:induction false} MergeEncoding<M>(step: (M, Field) -> Option<M>, m: M, fs: seq<Field>)
    requires AllValid(fs)
    ensures Merge(step, m, FieldsBytes(fs)) == Apply(step, m, fs)
    decreases |fs|
  {
    if fs != [] {
      FieldRoundTrip(fs[0], FieldsBytes(fs[1..]));
      var next := step(m, fs[0]);
      if next.Some? { MergeEncoding(step, next.value, fs[1..]); }
    }
  }

  lemma {:induction false} ApplyConcat<M>(step: (M, Field) -> Option<M>, m: M, fs: seq<Field>, gs: seq<Field>)
    ensures Apply(step, m, fs + gs)
         == if Apply(step, m, fs).None? then None else Apply(step, Apply(step, m, fs).value, gs)
    decreases |fs|
  {
    if fs == [] {
      assert fs + gs == gs;
    } else {
      assert (fs + gs)[1..] == fs[1..] + gs;
      var next := step(m, fs[0]);
      if next.Some? { ApplyConcat(step, next.value, fs[1..], gs); }
    }
  }

  lemma {:induction false} FieldsBytesConcat(fs: seq<Field>, gs: seq<Field>)
    ensures FieldsBytes(fs + gs) == FieldsBytes(fs) + FieldsBytes(gs)
    decreases |fs|
  {
    if fs == [] {
      assert fs + gs == gs;
    } else {
      assert (fs + gs)[1..] == fs[1..] + gs;
      FieldsBytesConcat(fs[1..], gs);
    }
  }

  lemma {:induction false} SingleField(f: Field)
    ensures FieldsBytes([f]) == FieldBytes(f)
  {
    assert FieldsBytes([f]) == FieldBytes(f) + FieldsBytes([]);
  }
}
