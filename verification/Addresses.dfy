// Conversions between messages and addresses (src/schema/mod.rs).
module Addresses {
  import opened Common
  import opened Schema

  /** An address for printing: 32 bits, or sixteen bytes. */
  datatype IpAddr = Ipv4(bits: u32) | Ipv6(octets: seq<byte>)

  function V4Address(a: u32): Address {
    NEW_ADDRESS.(value := V4(a))
  }

  /** The getter of the generated code: 0 for any other kind of address. */
  function GetV4(a: Address): u32 {
    if a.value.V4? then a.value.v4 else 0
  }

  function GetV6(a: Address): seq<byte> {
    if a.value.V6? then a.value.v6 else []
  }

  /** The address a message stands for; None is the panic on more than sixteen bytes. Fewer bytes are the
      front of an address that ends in zeros. */
  method IpOf(address: Address) returns (r: Option<IpAddr>)
    ensures r.None? <==> address.value.V6? && |address.value.v6| > 16
    ensures address.value.V4? ==> r == Some(Ipv4(address.value.v4))
    ensures r.Some? && !address.value.V4? ==>
              && r.value.Ipv6? && |r.value.octets| == 16
              && var given := if address.value.V6? then address.value.v6 else [];
              && given <= r.value.octets
              && forall i :: |given| <= i < 16 ==> r.value.octets[i] == 0
  {
    if address.value.V4? {
      return Some(Ipv4(address.value.v4));
    }
    var v6 := GetV6(address);
    var buffer := new byte[16](_ => 0);
    for i := 0 to |v6|
      invariant i <= 16
      invariant buffer[..i] == v6[..i]
      invariant forall k :: i <= k < 16 ==> buffer[k] == 0
    {
      if i >= buffer.Length { return None; }
      buffer[i] := v6[i];
    }
    r := Some(Ipv6(buffer[..]));
  }
}
