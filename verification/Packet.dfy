// ICMP and IPv4 packets (src/net/mod.rs): parsers, printer and the echo request.
module Packet {
  import opened Common
  import opened Checksum
  import opened Cursors

  datatype ICMP4Packet = ICMP4Packet(
    icmpType: byte,
    code: byte,
    checksum: u16,
    identifier: u16,
    sequenceNumber: u16,
    body: seq<byte>)

  datatype PacketPayload = ICMPv4(value: ICMP4Packet) | Unimplemented

  datatype IPv4Packet = IPv4Packet(
    ttl: byte,
    sourceAddress: u32,
    destinationAddress: u32,
    payload: PacketPayload)

  // ----- ICMP: "Echo or Echo Reply Message" of RFC 792 -----

  function IcmpBytes(p: ICMP4Packet): (b: seq<byte>)
    ensures |b| == 8 + |p.body|
  {
    [p.icmpType, p.code] + Be16(p.checksum) + Be16(p.identifier) + Be16(p.sequenceNumber) + p.body
  }

  /** The packet a byte string denotes; None is the panic of the parser on a short buffer. */
  function IcmpOf(data: seq<byte>): Option<ICMP4Packet> {
    if |data| < 8 then None
    else Some(ICMP4Packet(data[0], data[1], FromBe16(data[2], data[3]),
                          FromBe16(data[4], data[5]), FromBe16(data[6], data[7]), data[8..]))
  }

  /** The number whose digits to base 256 are the bytes, most significant first. */
  function Base256(b: seq<byte>): nat {
    if b == [] then 0 else 0x100 * Base256(b[..|b| - 1]) + b[|b| - 1]
  }

  lemma {:induction false} TwoBytes(h: byte, l: byte)
    ensures Base256([h, l]) == FromBe16(h, l)
  {
    assert [h, l][..1] == [h];
    assert [h][..0] == [];
    assert Base256([h]) == h;
  }

  lemma {:induction false} FourBytes(a: byte, b: byte, c: byte, d: byte)
    ensures Base256([a, b, c, d]) == FromBe32(a, b, c, d)
  {
    TwoBytes(a, b);
    assert [a, b, c, d][..3] == [a, b, c];
    assert [a, b, c][..2] == [a, b];
  }

  /** The layout of RFC 792, byte by byte: type, code, then checksum, identifier and sequence number with the
      most significant byte first, then the body. */
  ghost predicate IcmpLayout(b: seq<byte>, p: ICMP4Packet) {
    && |b| == 8 + |p.body|
    && b[0] == p.icmpType && b[1] == p.code
    && Base256(b[2..4]) == p.checksum
    && Base256(b[4..6]) == p.identifier
    && Base256(b[6..8]) == p.sequenceNumber
    && b[8..] == p.body
  }

  lemma {:induction false} HighByteFirst(x: u16)
    ensures Base256(Be16(x)) == x && Base256([Le16(x)[1], Le16(x)[0]]) == x
  {
    TwoBytes(x / 0x100, x % 0x100);
  }

  lemma {:induction false} IcmpBytesLayout(p: ICMP4Packet)
    ensures IcmpLayout(IcmpBytes(p), p)
  {
    var b := IcmpBytes(p);
    HighByteFirst(p.checksum);
    HighByteFirst(p.identifier);
    HighByteFirst(p.sequenceNumber);
    assert b[2..4] == Be16(p.checksum) && b[4..6] == Be16(p.identifier) && b[6..8] == Be16(p.sequenceNumber);
    assert b[8..] == p.body;
  }

  lemma {:induction false} IcmpPrintParse(p: ICMP4Packet)
    ensures IcmpOf(IcmpBytes(p)) == Some(p)
  {
    assert IcmpBytes(p)[8..] == p.body;
  }

  lemma {:induction false} IcmpParsePrint(data: seq<byte>)
    ensures IcmpOf(data).Some? <==> |data| >= 8
    ensures IcmpOf(data).Some? ==> IcmpBytes(IcmpOf(data).value) == data
  {
    if |data| >= 8 {
      var p := IcmpOf(data).value;
      WordParts(data[2], data[3]);
      WordParts(data[4], data[5]);
      WordParts(data[6], data[7]);
      assert data == data[..8] + data[8..];
      assert IcmpBytes(p)[..8] == data[..8];
    }
  }

  method SerializeIcmp(p: ICMP4Packet) returns (wtr: seq<byte>)
    ensures IcmpOf(wtr) == Some(p)
    ensures wtr == IcmpBytes(p) && IcmpLayout(wtr, p)
  {
    wtr := [];
    wtr := wtr + [p.icmpType];
    wtr := wtr + [p.code];
    wtr := wtr + Be16(p.checksum);
    wtr := wtr + Be16(p.identifier);
    wtr := wtr + Be16(p.sequenceNumber);
    wtr := wtr + p.body;
    assert wtr == IcmpBytes(p);
    IcmpPrintParse(p);
    IcmpBytesLayout(p);
  }

  method ParseIcmp(data: seq<byte>) returns (r: Option<ICMP4Packet>)
    ensures r.Some? <==> |data| >= 8
    ensures r.Some? ==> IcmpBytes(r.value) == data && IcmpLayout(data, r.value)
    ensures r == IcmpOf(data)
  {
    IcmpParsePrint(data);
    if |data| >= 8 { IcmpBytesLayout(IcmpOf(data).value); }
    var cursor := new Cursor(data);
    var icmpType := cursor.ReadU8();
    if icmpType.None? { return None; }
    var code := cursor.ReadU8();
    if code.None? { return None; }
    var checksum := cursor.ReadU16Be();
    if checksum.None? { return None; }
    var identifier := cursor.ReadU16Be();
    if identifier.None? { return None; }
    var sequenceNumber := cursor.ReadU16Be();
    if sequenceNumber.None? { return None; }
    r := Some(ICMP4Packet(icmpType.value, code.value, checksum.value,
                          identifier.value, sequenceNumber.value, cursor.data[8..]));
  }

  method CalcChecksum(buffer: seq<byte>) returns (c: u16)
    ensures c == ChecksumOf(buffer)
  {
    var cursor := new Cursor(buffer);
    var sum: u32 := 0;
    ghost var total: nat, p: nat := 0, 0;
    assert buffer[0..] == buffer;
    var word := cursor.ReadU16Le();
    while word.Some?
      invariant cursor.data == buffer && p <= |buffer|
      invariant cursor.pos == if word.Some? then p + 2 else p
      invariant word == if p + 2 <= |buffer| then Some(FromLe16(buffer[p], buffer[p + 1])) else None
      invariant sum == total % TWO32
      invariant total + SumLe(buffer[p..]) == SumLe(buffer)
      decreases |buffer| - p
    {
      assert buffer[p..][2..] == buffer[p + 2..];
      AddWraps(total, word.value);
      sum := Add32(sum, word.value);
      total, p := total + word.value, p + 2;
      word := cursor.ReadU16Le();
    }
    var last := cursor.ReadU8();
    if last.Some? {
      AddWraps(total, last.value);
      sum := Add32(sum, last.value);
      total := total + last.value;
    }
    assert total == SumLe(buffer);
    ghost var accumulated := sum;
    while sum / 0x1_0000 > 0
      invariant Fold(sum) == Fold(accumulated)
      decreases sum
    {
      sum := sum % 0x1_0000 + sum / 0x1_0000;
    }
    c := 0xFFFF - sum % 0x1_0000;
  }

  lemma {:induction false} AddWraps(total: nat, w: nat)
    ensures Add32(total % TWO32, w) == (total + w) % TWO32
  {
    var x := total % TWO32 + w;
    RemainderUnique(total + w, total / TWO32 + x / TWO32, x % TWO32);
  }

  lemma {:induction false} RemainderUnique(x: nat, q: int, r: u32)
    requires x == TWO32 * q + r
    ensures x % TWO32 == r
  {
  }

  // ----- echo request -----

  function EchoHeader(identifier: u16, sequenceNumber: u16, checksum: u16, body: seq<byte>): ICMP4Packet {
    ICMP4Packet(8, 0, checksum, identifier, sequenceNumber, body)
  }

  /** The checksum the code computes, over the request with a zero checksum field. */
  function EchoChecksum(identifier: u16, sequenceNumber: u16, body: seq<byte>): u16 {
    ChecksumOf(IcmpBytes(EchoHeader(identifier, sequenceNumber, 0, body)))
  }

  /** An echo request whose checksum bytes hold the code's value, low byte first. */
  function EchoRequestBytes(identifier: u16, sequenceNumber: u16, body: seq<byte>): seq<byte> {
    IcmpBytes(EchoHeader(identifier, sequenceNumber,
                         SwapBytes(EchoChecksum(identifier, sequenceNumber, body)), body))
  }

  method EchoRequest(identifier: u16, sequenceNumber: u16, body: seq<byte>) returns (r: seq<byte>)
    ensures r == EchoRequestBytes(identifier, sequenceNumber, body)
    ensures ChecksumOf(r) == 0
    ensures EchoLayout(r, identifier, sequenceNumber, body)
  {
    var packet := ICMP4Packet(8, 0, 0, identifier, sequenceNumber, body);
    var bytes := SerializeIcmp(packet);
    var checksum := CalcChecksum(bytes);
    packet := packet.(checksum := checksum);
    r := PutChecksum(bytes, packet.checksum);
    EchoAssembled(identifier, sequenceNumber, body, bytes, r);
    EchoBytesLayout(identifier, sequenceNumber, body);
  }

  /** An echo request, byte by byte: type 8, code 0, and within the bound the checksum of RFC 1071 taken with
      a zero checksum field. */
  ghost predicate EchoLayout(r: seq<byte>, identifier: u16, sequenceNumber: u16, body: seq<byte>) {
    && |r| == 8 + |body| && r[0] == 8 && r[1] == 0
    && Base256(r[4..6]) == identifier
    && Base256(r[6..8]) == sequenceNumber
    && r[8..] == body
    && (|r| <= 131074 ==> Base256(r[2..4]) == RfcChecksum(r[..2] + [0, 0] + r[4..]))
  }

  lemma {:induction false} EchoBytesLayout(identifier: u16, sequenceNumber: u16, body: seq<byte>)
    ensures EchoLayout(EchoRequestBytes(identifier, sequenceNumber, body), identifier, sequenceNumber, body)
  {
    var r := EchoRequestBytes(identifier, sequenceNumber, body);
    var p := EchoHeader(identifier, sequenceNumber, SwapBytes(EchoChecksum(identifier, sequenceNumber, body)), body);
    IcmpBytesLayout(p);
    IcmpPrintParse(p);
    EchoParses(identifier, sequenceNumber, body);
    ZeroedChecksum(p);
  }

  lemma {:induction false} ZeroedChecksum(p: ICMP4Packet)
    ensures IcmpBytes(p.(checksum := 0)) == IcmpBytes(p)[..2] + [0, 0] + IcmpBytes(p)[4..]
  {
    var rest := Be16(p.identifier) + Be16(p.sequenceNumber) + p.body;
    assert Be16(0) == [0, 0];
    assert IcmpBytes(p) == [p.icmpType, p.code] + Be16(p.checksum) + rest;
    assert IcmpBytes(p.(checksum := 0)) == [p.icmpType, p.code] + [0, 0] + rest;
    assert IcmpBytes(p)[..2] == [p.icmpType, p.code] && IcmpBytes(p)[4..] == rest;
  }

  /** Overwrites the checksum field, behind the type and code bytes. */
  method PutChecksum(bytes: seq<byte>, checksum: u16) returns (r: seq<byte>)
    requires 4 <= |bytes|
    ensures r == bytes[..2] + Le16(checksum) + bytes[4..]
    ensures Base256([r[3], r[2]]) == checksum
  {
    HighByteFirst(checksum);
    var cursor := new Cursor(bytes);
    cursor.SetPosition(2);
    cursor.WriteU16Le(checksum);
    r := cursor.data;
  }

  lemma {:induction false} EchoAssembled(identifier: u16, sequenceNumber: u16, body: seq<byte>, bytes: seq<byte>, r: seq<byte>)
    requires bytes == IcmpBytes(EchoHeader(identifier, sequenceNumber, 0, body))
    requires r == bytes[..2] + Le16(ChecksumOf(bytes)) + bytes[4..]
    ensures r == EchoRequestBytes(identifier, sequenceNumber, body)
    ensures ChecksumOf(r) == 0
  {
    PatchedLayout(identifier, sequenceNumber, ChecksumOf(bytes), body);
    EchoSelfVerifies(identifier, sequenceNumber, body);
  }

  /** The bytes of an echo header, the checksum field told apart from what is before and behind it. */
  lemma {:induction false} Layout(identifier: u16, sequenceNumber: u16, checksum: u16, body: seq<byte>)
    ensures IcmpBytes(EchoHeader(identifier, sequenceNumber, checksum, body))
         == [8, 0] + Be16(checksum) + (Be16(identifier) + Be16(sequenceNumber) + body)
  {
  }

  lemma {:induction false} PatchedLayout(identifier: u16, sequenceNumber: u16, checksum: u16, body: seq<byte>)
    ensures var bytes := IcmpBytes(EchoHeader(identifier, sequenceNumber, 0, body));
            (bytes[..2] + Le16(checksum) + bytes[4..]
             == IcmpBytes(EchoHeader(identifier, sequenceNumber, SwapBytes(checksum), body)))
  {
    var bytes := IcmpBytes(EchoHeader(identifier, sequenceNumber, 0, body));
    var rest := Be16(identifier) + Be16(sequenceNumber) + body;
    Layout(identifier, sequenceNumber, 0, body);
    Layout(identifier, sequenceNumber, SwapBytes(checksum), body);
    SwappedBytes(checksum);
    assert bytes[..2] == [8, 0];
    assert bytes[4..] == rest;
  }

  lemma {:induction false} SwappedBytes(x: u16)
    ensures Be16(SwapBytes(x)) == Le16(x)
  {
    WordParts(x % 0x100, x / 0x100);
  }

  lemma {:induction false} SumOfHeader(x: byte, y: byte, c: u16, rest: seq<byte>)
    ensures SumLe([x, y] + Le16(c) + rest) == FromLe16(x, y) + c + SumLe(rest)
  {
    var b := [x, y] + Le16(c) + rest;
    assert b[2..] == Le16(c) + rest;
    assert b[2..][2..] == rest;
  }

  /** Every echo request checks to zero, whatever the length of its body: a sum that wraps the u32
      accumulator wraps alike with and without the checksum, since 2^32 - 1 is a multiple of 65535. */
  lemma {:induction false} EchoSelfVerifies(identifier: u16, sequenceNumber: u16, body: seq<byte>)
    ensures ChecksumOf(EchoRequestBytes(identifier, sequenceNumber, body)) == 0
  {
    var c := EchoChecksum(identifier, sequenceNumber, body);
    var s := EchoSum(identifier, sequenceNumber, c, body);
    AddingTheChecksum(s, c);
  }

  lemma {:induction false} EchoSum(identifier: u16, sequenceNumber: u16, c: u16, body: seq<byte>) returns (s: nat)
    ensures SumLe(IcmpBytes(EchoHeader(identifier, sequenceNumber, 0, body))) == s
    ensures SumLe(IcmpBytes(EchoHeader(identifier, sequenceNumber, SwapBytes(c), body))) == s + c
  {
    var rest := Be16(identifier) + Be16(sequenceNumber) + body;
    Layout(identifier, sequenceNumber, 0, body);
    Layout(identifier, sequenceNumber, SwapBytes(c), body);
    SwappedBytes(0);
    SwappedBytes(c);
    SumOfHeader(8, 0, 0, rest);
    SumOfHeader(8, 0, c, rest);
    s := SumLe(IcmpBytes(EchoHeader(identifier, sequenceNumber, 0, body)));
  }

  lemma {:induction false} AddingTheChecksum(s: nat, c: u16)
    requires c == 0xFFFF - Fold(s % TWO32)
    ensures 0xFFFF - Fold((s + c) % TWO32) == 0
  {
    var t := s % TWO32;
    FoldClosedForm(t);
    FoldClosedForm((s + c) % TWO32);
    var q := if t == 0 then 0 else (t - 1) / 0xFFFF;
    assert t + c == 0xFFFF * (if t == 0 then 1 else q + 1);
    RemainderUnique(s + c, s / TWO32, t + c);
    NormUnique(t + c, 0xFFFF, if t == 0 then 0 else q);
  }

  /** Parsing an echo request gives back its fields; for bodies within the bound the checksum field
      is the RFC 1071 checksum of the request. */
  lemma {:induction false} EchoParses(identifier: u16, sequenceNumber: u16, body: seq<byte>)
    ensures var r := IcmpOf(EchoRequestBytes(identifier, sequenceNumber, body));
            && r.Some? && r.value.icmpType == 8 && r.value.code == 0
            && r.value.identifier == identifier && r.value.sequenceNumber == sequenceNumber
            && r.value.body == body
            && (|body| + 8 <= 131074 ==>
                 r.value.checksum == RfcChecksum(IcmpBytes(r.value.(checksum := 0))))
  {
    var c := EchoChecksum(identifier, sequenceNumber, body);
    var p := EchoHeader(identifier, sequenceNumber, SwapBytes(c), body);
    IcmpPrintParse(p);
    if |body| + 8 <= 131074 {
      var zero := IcmpBytes(p.(checksum := 0));
      ChecksumMeetsRfcWithinBound(zero);
      SwappedBytes(c);
      var x := RfcChecksum(zero);
      assert Be16(x)[0] == Be16(SwapBytes(c))[0] && Be16(x)[1] == Be16(SwapBytes(c))[1];
    }
  }

  // ----- IPv4: section 3.1 of RFC 791 -----

  function HeaderLength(first: byte): nat {
    first % 0x10 * 4
  }

  /** The packet a byte string denotes; None is the panic of the parser. */
  function IPv4Of(data: seq<byte>): Option<IPv4Packet> {
    if |data| < 20 || |data| < HeaderLength(data[0]) then None
    else
      var rest := data[HeaderLength(data[0])..];
      var source := FromBe32(data[12], data[13], data[14], data[15]);
      var destination := FromBe32(data[16], data[17], data[18], data[19]);
      if data[9] != 1 then Some(IPv4Packet(data[8], source, destination, Unimplemented))
      else if |rest| < 8 then None
      else Some(IPv4Packet(data[8], source, destination, ICMPv4(IcmpOf(rest).value)))
  }

  /** The fields of section 3.1 of RFC 791 that are read, byte by byte. The header length is four times the
      low half of the first byte; behind the header an ICMP packet is read if the protocol is 1. */
  ghost predicate IPv4Layout(data: seq<byte>, p: IPv4Packet) {
    && |data| >= 20 && |data| >= 4 * (data[0] % 0x10)
    && p.ttl == data[8]
    && p.sourceAddress == Base256(data[12..16])
    && p.destinationAddress == Base256(data[16..20])
    && (p.payload.ICMPv4? <==> data[9] == 1)
    && (p.payload.ICMPv4? ==> IcmpLayout(data[4 * (data[0] % 0x10)..], p.payload.value))
  }

  lemma {:induction false} IPv4OfLayout(data: seq<byte>)
    ensures IPv4Of(data).None? <==>
              || |data| < 20 || |data| < 4 * (data[0] % 0x10)
              || (data[9] == 1 && |data| < 4 * (data[0] % 0x10) + 8)
    ensures IPv4Of(data).Some? ==> IPv4Layout(data, IPv4Of(data).value)
  {
    if |data| >= 20 {
      assert data[12..16] == [data[12], data[13], data[14], data[15]];
      assert data[16..20] == [data[16], data[17], data[18], data[19]];
      FourBytes(data[12], data[13], data[14], data[15]);
      FourBytes(data[16], data[17], data[18], data[19]);
    }
    if IPv4Of(data).Some? && IPv4Of(data).value.payload.ICMPv4? {
      var rest := data[HeaderLength(data[0])..];
      IcmpParsePrint(rest);
      IcmpBytesLayout(IcmpOf(rest).value);
    }
  }

  method ParseIPv4(data: seq<byte>) returns (r: Option<IPv4Packet>)
    ensures r == IPv4Of(data)
    ensures r.None? <==>
              || |data| < 20 || |data| < 4 * (data[0] % 0x10)
              || (data[9] == 1 && |data| < 4 * (data[0] % 0x10) + 8)
    ensures r.Some? ==> IPv4Layout(data, r.value)
  {
    IPv4OfLayout(data);
    var cursor := new Cursor(data);
    var first := cursor.ReadU8();
    if first.None? { return None; }
    var headerLength := first.value % 0x10 * 4;
    cursor.SetPosition(8);
    var ttl := cursor.ReadU8();
    if ttl.None? { return None; }
    var packetType := cursor.ReadU8();
    if packetType.None? { return None; }
    cursor.SetPosition(12);
    var source := cursor.ReadU32Be();
    if source.None? { return None; }
    var destination := cursor.ReadU32Be();
    if destination.None? { return None; }
    if |cursor.data| < headerLength { return None; }
    var payloadBytes := cursor.data[headerLength..];
    var payload := Unimplemented;
    if packetType.value == 1 {
      var icmp := ParseIcmp(payloadBytes);
      if icmp.None? { return None; }
      payload := ICMPv4(icmp.value);
    }
    r := Some(IPv4Packet(ttl.value, source.value, destination.value, payload));
  }

  /** An IPv4 header in the terms of RFC 791: all fields, and options that fill whole words. */
  datatype IPv4Header = IPv4Header(
    version: byte,
    typeOfService: byte,
    totalLength: u16,
    identification: u16,
    flagsAndFragment: u16,
    timeToLive: byte,
    protocol: byte,
    headerChecksum: u16,
    source: u32,
    destination: u32,
    options: seq<byte>)
  {
    predicate Valid() {
      version < 0x10 && |options| % 4 == 0 && |options| <= 40
    }

    /** Internet header length in 32-bit words: 5 to 15. */
    function Ihl(): (n: nat)
      requires Valid()
      ensures 5 <= n <= 15
    {
      5 + |options| / 4
    }

    function FixedBytes(): (b: seq<byte>)
      requires Valid()
      ensures |b| == 20
    {
      [0x10 * version + Ihl(), typeOfService] + Be16(totalLength)
      + Be16(identification) + Be16(flagsAndFragment)
      + [timeToLive, protocol] + Be16(headerChecksum)
      + Be32(source) + Be32(destination)
    }

    function Bytes(): (b: seq<byte>)
      requires Valid()
      ensures |b| == 4 * Ihl()
    {
      FixedBytes() + options
    }
  }

  lemma {:induction false} FixedFields(h: IPv4Header)
    requires h.Valid()
    ensures var f := h.FixedBytes();
            && f[0] == 0x10 * h.version + h.Ihl() && f[8] == h.timeToLive && f[9] == h.protocol
            && f[12..16] == Be32(h.source) && f[16..20] == Be32(h.destination)
    ensures HeaderLength(h.FixedBytes()[0]) == 4 * h.Ihl()
  {
    var front := [0x10 * h.version + h.Ihl(), h.typeOfService] + Be16(h.totalLength)
                 + Be16(h.identification) + Be16(h.flagsAndFragment);
    var middle := front + [h.timeToLive, h.protocol] + Be16(h.headerChecksum);
    assert h.FixedBytes() == middle + Be32(h.source) + Be32(h.destination);
    assert |front| == 8 && |middle| == 12;
  }

  /** Parsing any valid header before a payload returns the TTL, both addresses and the payload. */
  lemma {:induction false} IPv4Parses(h: IPv4Header, payload: seq<byte>)
    requires h.Valid()
    ensures h.protocol != 1 ==>
              IPv4Of(h.Bytes() + payload) == Some(IPv4Packet(h.timeToLive, h.source, h.destination, Unimplemented))
    ensures h.protocol == 1 && |payload| < 8 ==> IPv4Of(h.Bytes() + payload) == None
    ensures h.protocol == 1 && |payload| >= 8 ==>
              IPv4Of(h.Bytes() + payload) ==
              Some(IPv4Packet(h.timeToLive, h.source, h.destination, ICMPv4(IcmpOf(payload).value)))
  {
    var f := h.FixedBytes();
    var data := h.Bytes() + payload;
    FixedFields(h);
    assert data[..20] == f;
    assert data[0] == f[0] && data[8] == f[8] && data[9] == f[9];
    assert data[12..16] == f[12..16] && data[16..20] == f[16..20];
    AddressBytes(data, 12, h.source);
    AddressBytes(data, 16, h.destination);
    assert data[4 * h.Ihl()..] == payload;
  }

  lemma {:induction false} AddressBytes(data: seq<byte>, at: nat, x: u32)
    requires at + 4 <= |data| && data[at..at + 4] == Be32(x)
    ensures FromBe32(data[at], data[at + 1], data[at + 2], data[at + 3]) == x
  {
    var d := data[at..at + 4];
    assert data[at] == d[0] && data[at + 1] == d[1] && data[at + 2] == d[2] && data[at + 3] == d[3];
  }

  /** A header with an ICMP packet behind it comes back as exactly that packet. */
  lemma {:induction false} IPv4CarriesIcmp(h: IPv4Header, p: ICMP4Packet)
    requires h.Valid() && h.protocol == 1
    ensures IPv4Of(h.Bytes() + IcmpBytes(p)) == Some(IPv4Packet(h.timeToLive, h.source, h.destination, ICMPv4(p)))
  {
    IPv4Parses(h, IcmpBytes(p));
    IcmpPrintParse(p);
  }
}
