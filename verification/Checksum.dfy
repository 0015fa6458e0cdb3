// The Internet checksum of src/net/mod.rs, against RFC 1071.
module Checksum {
  import opened Common

  // ----- the code's own sum -----

  /** Sum of the little-endian 16-bit words; an odd last byte counts as a low byte. */
  function SumLe(b: seq<byte>): nat {
    if |b| == 0 then 0
    else if |b| == 1 then b[0]
    else FromLe16(b[0], b[1]) + SumLe(b[2..])
  }

  /** Repeated folding of the carries into the low 16 bits. */
  function Fold(sum: nat): nat {
    if sum < 0x1_0000 then sum else Fold(FoldOnce(sum))
  }

  function FoldOnce(sum: nat): nat {
    sum % 0x1_0000 + sum / 0x1_0000
  }

  /** The value of the checksum field: the accumulator is a u32, so the sum is taken modulo 2^32. */
  function ChecksumOf(b: seq<byte>): u16 {
    FoldClosedForm(SumLe(b) % TWO32);
    0xFFFF - Fold(SumLe(b) % TWO32)
  }

  // ----- RFC 1071: one's complement addition of big-endian words -----

  /** 16-bit one's complement addition: the carry is added back at the right. */
  function OnesAdd(a: u16, b: u16): u16 {
    if a + b < 0x1_0000 then a + b else a + b - 0xFFFF
  }

  /** The RFC's sum over network-order words, an odd last byte padded with a zero byte on the right. */
  function OnesSum(b: seq<byte>): u16 {
    if |b| == 0 then 0
    else if |b| == 1 then FromBe16(b[0], 0)
    else OnesAdd(FromBe16(b[0], b[1]), OnesSum(b[2..]))
  }

  function RfcChecksum(b: seq<byte>): u16 {
    0xFFFF - OnesSum(b)
  }

  function SumBe(b: seq<byte>): nat {
    if |b| == 0 then 0
    else if |b| == 1 then FromBe16(b[0], 0)
    else FromBe16(b[0], b[1]) + SumBe(b[2..])
  }

  // ----- residues modulo 65535 -----

  /** The representative of s modulo 65535 in 1..65535, and 0 only for 0. */
  function Norm(s: nat): u16 {
    if s == 0 then 0 else (s - 1) % 0xFFFF + 1
  }

  lemma {:induction false} NormUnique(s: nat, r: u16, q: int)
    requires 0 < s && 0 < r && s == 0xFFFF * q + r
    ensures Norm(s) == r
  {
    assert s - 1 == 0xFFFF * q + (r - 1);
  }

  lemma {:induction false} NormCongruent(s: nat, t: nat, q: int)
    requires 0 < s && 0 < t && s == t + 0xFFFF * q
    ensures Norm(s) == Norm(t)
  {
    NormUnique(s, Norm(t), (t - 1) / 0xFFFF + q);
  }

  /** The fold loop computes the residue: congruent to the sum, and 0 only for a zero sum. */
  lemma {:induction false} FoldClosedForm(s: nat)
    ensures Fold(s) == Norm(s)
    decreases s
  {
    if s < 0x1_0000 {
      if s > 0 { NormUnique(s, s, 0); }
    } else {
      FoldClosedForm(FoldOnce(s));
      NormCongruent(s, FoldOnce(s), s / 0x1_0000);
    }
  }

  lemma {:induction false} FoldCongruent(s: nat)
    ensures Fold(s) % 0xFFFF == s % 0xFFFF && (Fold(s) == 0 <==> s == 0)
  {
    FoldClosedForm(s);
    if s > 0 {
      var q := (s - 1) / 0xFFFF;
      assert s == 0xFFFF * q + Norm(s);
    }
  }

  /** From any u32 the loop ends within two rounds, and each round shrinks the sum. */
  lemma {:induction false} FoldTwoRounds(s: u32)
    ensures FoldOnce(FoldOnce(s)) < 0x1_0000
    ensures 0x1_0000 <= s ==> FoldOnce(s) < s
  {
  }

  // ----- what the code computes is the RFC's checksum -----

  lemma {:induction false} OnesSumIsNorm(b: seq<byte>)
    ensures OnesSum(b) == Norm(SumBe(b))
    decreases |b|
  {
    if |b| >= 2 {
      OnesSumIsNorm(b[2..]);
      OnesAddIsNorm(FromBe16(b[0], b[1]), SumBe(b[2..]));
    }
  }

  lemma {:induction false} OnesAddIsNorm(w: u16, s: nat)
    ensures OnesAdd(w, Norm(s)) == Norm(w + s)
  {
    if w + s > 0 {
      var q := if s == 0 then 0 else (s - 1) / 0xFFFF;
      NormUnique(w + s, OnesAdd(w, Norm(s)), if w + Norm(s) < 0x1_0000 then q else q + 1);
    }
  }

  function SwapBytes(x: u16): u16 {
    FromBe16(x % 0x100, x / 0x100)
  }

  lemma {:induction false} ByteOrdersCongruent(b: seq<byte>) returns (k: nat)
    ensures 0x100 * SumLe(b) == SumBe(b) + 0xFFFF * k
    ensures SumLe(b) == 0 <==> SumBe(b) == 0
    decreases |b|
  {
    if |b| < 2 {
      k := 0;
    } else {
      k := ByteOrdersCongruent(b[2..]);
      k := k + b[1];
    }
  }

  lemma {:induction false} SwapIsTimes256(s: nat)
    ensures Norm(0x100 * s) == SwapBytes(Norm(s))
  {
    if s > 0 {
      var n := Norm(s);
      var q := (s - 1) / 0xFFFF;
      assert s == 0xFFFF * q + n;
      assert 0x100 * n == 0xFFFF * (n / 0x100) + SwapBytes(n);
      NormUnique(0x100 * s, SwapBytes(n), 0x100 * q + n / 0x100);
    }
  }

  /** Section 2(B) of RFC 1071: swapping the bytes of every word swaps the bytes of the sum. */
  lemma {:induction false} ByteOrderIndependence(b: seq<byte>)
    ensures Norm(SumBe(b)) == SwapBytes(Norm(SumLe(b)))
  {
    var k := ByteOrdersCongruent(b);
    if SumBe(b) > 0 {
      NormCongruent(0x100 * SumLe(b), SumBe(b), k);
    }
    SwapIsTimes256(SumLe(b));
  }

  lemma {:induction false} ComplementedBytes(n: u16)
    ensures Le16(0xFFFF - n) == Be16(0xFFFF - SwapBytes(n))
  {
    var h, l := n / 0x100, n % 0x100;
    WordParts(h, l);
    WordParts(l, h);
    WordParts(0xFF - h, 0xFF - l);
    WordParts(0xFF - l, 0xFF - h);
    assert 0xFFFF - n == FromBe16(0xFF - h, 0xFF - l);
    assert 0xFFFF - SwapBytes(n) == FromBe16(0xFF - l, 0xFF - h);
  }

  lemma {:induction false} WordParts(h: byte, l: byte)
    ensures FromBe16(h, l) / 0x100 == h && FromBe16(h, l) % 0x100 == l
  {
  }

  /** How often the u32 accumulator wraps around while summing b. */
  function Wraps(b: seq<byte>): nat {
    SumLe(b) / TWO32
  }

  /** Exactly when the code's checksum bytes are the RFC's: no wrap-around in the accumulator, or
      (only possible beyond 8 GiB) a multiple of 65535 wraps that leaves a non-zero remainder. */
  lemma {:induction false} ChecksumMeetsRfc(b: seq<byte>)
    ensures Le16(ChecksumOf(b)) == Be16(RfcChecksum(b))
       <==> Wraps(b) % 0xFFFF == 0 && (SumLe(b) % TWO32 == 0 ==> Wraps(b) == 0)
  {
    FoldClosedForm(SumLe(b) % TWO32);
    OnesSumIsNorm(b);
    ByteOrderIndependence(b);
    SameBytes(Norm(SumLe(b) % TWO32), Norm(SumLe(b)));
    WrappedNorm(SumLe(b));
  }

  lemma {:induction false} SameBytes(m: u16, n: u16)
    ensures Le16(0xFFFF - m) == Be16(0xFFFF - SwapBytes(n)) <==> m == n
  {
    ComplementedBytes(n);
    var a, b := Le16(0xFFFF - m), Le16(0xFFFF - n);
    if a == b {
      assert a[0] == b[0] && a[1] == b[1];
    }
  }

  /** 2^32 is 1 modulo 65535, so each wrap-around loses one unit of the residue. */
  lemma {:induction false} WrappedNorm(s: nat)
    ensures Norm(s % TWO32) == Norm(s)
       <==> s / TWO32 % 0xFFFF == 0 && (s % TWO32 == 0 ==> s / TWO32 == 0)
  {
    var t, w := s % TWO32, s / TWO32;
    if t > 0 {
      NormCongruent(s, t + w, 0x1_0001 * w);
      NormShift(t, w);
    }
  }

  lemma {:induction false} NormShift(t: nat, w: nat)
    requires 0 < t
    ensures Norm(t + w) == Norm(t) <==> w % 0xFFFF == 0
  {
    if w % 0xFFFF == 0 {
      NormCongruent(t + w, t, w / 0xFFFF);
    } else {
      var q, q' := (t - 1) / 0xFFFF, (t + w - 1) / 0xFFFF;
      assert w == 0xFFFF * (q' - q) + Norm(t + w) - Norm(t);
    }
  }

  lemma {:induction false} SumBound(b: seq<byte>)
    ensures SumLe(b) <= 0xFFFF * ((|b| + 1) / 2)
    ensures |b| % 2 == 1 ==> SumLe(b) <= 0xFFFF * (|b| / 2) + 0xFF
    decreases |b|
  {
    if |b| >= 2 { SumBound(b[2..]); }
  }

  /** Every buffer of at most 131074 bytes is summed without wrap-around and so meets the RFC. */
  lemma {:induction false} ChecksumMeetsRfcWithinBound(b: seq<byte>)
    requires |b| <= 131074
    ensures SumLe(b) < TWO32
    ensures Le16(ChecksumOf(b)) == Be16(RfcChecksum(b))
  {
    SumBound(b);
    assert (|b| + 1) / 2 <= 0x1_0001;
    assert SumLe(b) < TWO32;
    assert Wraps(b) == 0;
    ChecksumMeetsRfc(b);
  }

  lemma {:induction false} ZeroSum(b: seq<byte>)
    ensures SumLe(b) == 0 <==> forall i :: 0 <= i < |b| ==> b[i] == 0
    decreases |b|
  {
    if |b| >= 2 {
      ZeroSum(b[2..]);
      assert forall i :: 2 <= i < |b| ==> b[i] == b[2..][i - 2];
    }
  }

  /** Within the bound the sum folds to 0, for a checksum of all ones, only when every byte is 0. */
  lemma {:induction false} OnlyZerosFoldToZero(b: seq<byte>)
    requires |b| <= 131074
    ensures ChecksumOf(b) == 0xFFFF <==> forall i :: 0 <= i < |b| ==> b[i] == 0
  {
    ChecksumMeetsRfcWithinBound(b);
    Unwrapped(SumLe(b));
    FoldCongruent(SumLe(b) % TWO32);
    ZeroSum(b);
  }

  lemma {:induction false} Unwrapped(s: nat)
    requires s < TWO32
    ensures s % TWO32 == s
  {
  }

  /** The bound is tight: one byte more can wrap the accumulator and give other bytes than the RFC. */
  lemma {:induction false} BoundIsTight(b: seq<byte>)
    requires |b| == 131075 && forall i :: 0 <= i < |b| ==> b[i] == 0xFF
    ensures SumLe(b) >= TWO32
    ensures Le16(ChecksumOf(b)) != Be16(RfcChecksum(b))
  {
    SumOfOnes(b);
    ChecksumMeetsRfc(b);
  }

  lemma {:induction false} SumOfOnes(b: seq<byte>)
    requires forall i :: 0 <= i < |b| ==> b[i] == 0xFF
    ensures SumLe(b) == 0xFFFF * (|b| / 2) + (if |b| % 2 == 1 then 0xFF else 0)
    decreases |b|
  {
    if |b| >= 2 { SumOfOnes(b[2..]); }
  }
}
