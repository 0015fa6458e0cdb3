// Signed ping payloads (src/schema/mod.rs). The keyed hash is any function to 32 bytes.
module Signing {
  import opened Common
  import opened Wire
  import opened Schema
  import opened Writing
  import opened RoundTrip
  import Encoder
  import Decoder

  type Secret = seq<byte>
  const EIGHT_ZEROS: seq<byte> := [0, 0, 0, 0, 0, 0, 0, 0]

  type Digest = d: seq<byte> | |d| == 32 witness EIGHT_ZEROS + EIGHT_ZEROS + EIGHT_ZEROS + EIGHT_ZEROS
  type Mac = (Secret, seq<byte>) -> Digest

  /** "test-secret", the secret of every client. */
  const SECRET: Secret := [116, 101, 115, 116, 45, 115, 101, 99, 114, 101, 116]

  datatype SignError = LengthError | MacError | ParseError

  datatype Verified = Accepted(payload: PingPayload) | Rejected(error: SignError)

  lemma {:induction false} SecretIs(i: nat)
    ensures |SECRET| == |"test-secret"|
    ensures i < |SECRET| ==> SECRET[i] == "test-secret"[i] as int
  {
  }

  function SignedBytes(mac: Mac, secret: Secret, p: PingPayload): seq<byte> {
    EncodePayload(p) + mac(secret, EncodePayload(p))
  }

  /** The last 32 bytes must be the hash of the others, and those must parse. */
  function Verify(mac: Mac, secret: Secret, buffer: seq<byte>): Verified {
    if |buffer| < 32 then Rejected(LengthError)
    else
      var value, signature := buffer[..|buffer| - 32], buffer[|buffer| - 32..];
      if mac(secret, value) != signature then Rejected(MacError)
      else
        var p := DecodePayload(value);
        if p.None? then Rejected(ParseError) else Accepted(p.value)
  }

  method ToSignedBytes(mac: Mac, secret: Secret, p: PingPayload) returns (bytes: seq<byte>)
    ensures |EncodePayload(p)| < TWO32 ==> bytes == SignedBytes(mac, secret, p)
    ensures |EncodePayload(p)| < TWO32 ==> bytes == EncodePayload(p) + mac(secret, EncodePayload(p))
    ensures |EncodePayload(p)| < TWO32 ==> Verify(mac, secret, bytes) == Accepted(BarePayload(p))
  {
    var size;
    bytes, size := Encoder.PayloadToBytes(p);
    var code := mac(secret, bytes);
    bytes := bytes + code;
    if |EncodePayload(p)| < TWO32 { SignedVerifies(mac, secret, p); }
  }

  method FromSignedBytes(mac: Mac, secret: Secret, buffer: seq<byte>) returns (r: Verified)
    ensures r == Verify(mac, secret, buffer)
    ensures r == Rejected(LengthError) <==> |buffer| < 32
    ensures |buffer| >= 32 ==>
              var value, signature := buffer[..|buffer| - 32], buffer[|buffer| - 32..];
              && (r == Rejected(MacError) <==> mac(secret, value) != signature)
              && (r == Rejected(ParseError) <==> mac(secret, value) == signature && DecodePayload(value).None?)
              && (mac(secret, value) == signature && DecodePayload(value).Some? ==>
                   r.Accepted? && DecodePayload(value) == Some(r.payload))
  {
    if |buffer| < 32 { return Rejected(LengthError); }
    var signature := buffer[|buffer| - 32..];
    var value := buffer[..|buffer| - 32];
    if mac(secret, value) != signature { return Rejected(MacError); }
    var p := Decoder.PayloadFromBytes(value);
    r := if p.None? then Rejected(ParseError) else Accepted(p.value);
  }

  /** What was signed with a secret is accepted with it, and gives the payload back. */
  lemma {:induction false} SignedVerifies(mac: Mac, secret: Secret, p: PingPayload)
    requires |EncodePayload(p)| < TWO32
    ensures Verify(mac, secret, SignedBytes(mac, secret, p)) == Accepted(BarePayload(p))
  {
    var value, buffer := EncodePayload(p), SignedBytes(mac, secret, p);
    assert buffer[..|buffer| - 32] == value && buffer[|buffer| - 32..] == mac(secret, value);
    PayloadRoundTrip(p);
  }

  /** A buffer is accepted exactly when it is an encoding followed by its own hash. */
  lemma {:induction false} AcceptedExactly(mac: Mac, secret: Secret, buffer: seq<byte>, p: PingPayload)
    ensures Verify(mac, secret, buffer) == Accepted(p)
       <==> exists value: seq<byte> :: buffer == value + mac(secret, value) && DecodePayload(value) == Some(p)
  {
    if Verify(mac, secret, buffer) == Accepted(p) {
      var value := buffer[..|buffer| - 32];
      assert buffer == value + mac(secret, value);
    }
    forall value: seq<byte> | buffer == value + mac(secret, value) && DecodePayload(value) == Some(p)
      ensures Verify(mac, secret, buffer) == Accepted(p)
    {
      assert buffer[..|buffer| - 32] == value && buffer[|buffer| - 32..] == mac(secret, value);
    }
  }

  /** A payload signed with one secret is accepted under another exactly when the hashes collide. */
  lemma {:induction false} OtherSecret(mac: Mac, secret: Secret, other: Secret, p: PingPayload)
    requires |EncodePayload(p)| < TWO32
    ensures Verify(mac, other, SignedBytes(mac, secret, p)).Accepted?
       <==> mac(other, EncodePayload(p)) == mac(secret, EncodePayload(p))
    ensures Verify(mac, other, SignedBytes(mac, secret, p)).Rejected? ==>
              Verify(mac, other, SignedBytes(mac, secret, p)) == Rejected(MacError)
  {
    var value, buffer := EncodePayload(p), SignedBytes(mac, secret, p);
    assert buffer[..|buffer| - 32] == value && buffer[|buffer| - 32..] == mac(secret, value);
    PayloadRoundTrip(p);
  }

  // ----- sizes -----

  ghost predicate V4(o: Option<Address>) {
    o.Some? ==> o.value.value.V4?
  }

  lemma {:induction false} V4Size(number: nat, o: Option<Address>)
    requires V4(o) && 1 <= number < 16
    ensures |FieldsBytes(OptAddress(number, o))| <= 8
  {
    if o.Some? {
      Encoder.VarintFieldSize(1, o.value.value.v4);
      VarintSizeExact(o.value.value.v4);
      var body := EncodeAddress(o.value);
      Encoder.LenSize(number, body);
      VarintSizeExact(|body|);
    }
  }

  lemma {:induction false} NumberSize(number: nat, v: u64)
    requires 1 <= number < 16
    ensures |FieldsBytes(OptVarint(number, v))| <= 11
    ensures v < TWO32 ==> |FieldsBytes(OptVarint(number, v))| <= 6
  {
    if v != 0 {
      Encoder.VarintFieldSize(number, v);
      VarintSizeExact(v);
    }
  }

  /** A payload with v4 addresses takes at most 33 bytes, and 65 with its signature. */
  lemma {:induction false} PayloadSize(mac: Mac, secret: Secret, p: PingPayload)
    requires V4(p.sourceAddress) && V4(p.destinationAddress)
    ensures |EncodePayload(p)| <= 33
    ensures |SignedBytes(mac, secret, p)| <= 65
  {
    Encoder.PayloadLength(p);
    NumberSize(1, p.taskId);
    NumberSize(2, p.transmitTime);
    V4Size(3, p.sourceAddress);
    V4Size(4, p.destinationAddress);
  }
}
