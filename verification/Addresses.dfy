/** Overlay addresses as the values they denote, not as printed text. */
module Addresses {
  import opened Base

  datatype Net24 = Net24(a: Byte, b: Byte, c: Byte)

  type Octets16 = s: seq<Byte> | |s| == 16 witness [0, 0, 0, 0, 0, 0, 0, 0, 0, 0, 0, 0, 0, 0, 0, 0]

  /** What an address string in the source can be: the empty string, a canonical IPv4 or IPv6
      literal, or any other text. Other text can still begin with the dotted prefix of some /24
      ("100.64.0.x"), which is all that a prefix test looks at; `stem` records which. */
  datatype Address =
    | NoAddress
    | V4(net: Net24, host: Byte)
    | V6(octets: Octets16)
    | Text(stem: Option<Net24>, tail: string)

  /** `strings.HasPrefix(ip, prefix + ".")`. */
  predicate UnderPrefix(net: Net24, ip: Address) {
    (ip.V4? && ip.net == net) || (ip.Text? && ip.stem == Some(net))
  }

  /** An IPv4 address written in IPv6 form (::ffff:a.b.c.d), which Go treats as IPv4. */
  predicate Mapped(o: Octets16) {
    (forall i :: 0 <= i < 10 ==> o[i] == 0) && o[10] == 255 && o[11] == 255
  }

  /** The IPv6 partner of an IPv4 overlay host: the server's /64 with the same host octet.
      NoAddress when the overlay has no IPv6 half or the input is not IPv4. */
  function TunnelIPv6(server6: Address, ip: Address): (r: Address)
    ensures r != NoAddress ==> r.V6? && ip.V4? && r.octets[15] == ip.host
    ensures r != NoAddress ==> server6.V6? && r.octets[..15] == server6.octets[..15]
  {
    if server6.V6? && !Mapped(server6.octets) && ip.V4? then
      V6(server6.octets[15 := ip.host])
    else NoAddress
  }

  /** Does the overlay have an IPv6 half? */
  predicate DualStack(server6: Address) {
    server6.V6? && !Mapped(server6.octets)
  }

  /** On one /24 the host mapping is injective, so one IPv4 allocator serves both families. */
  lemma {:induction false} TunnelIPv6Injective(server6: Address, ip1: Address, ip2: Address)
    requires DualStack(server6) && ip1.V4? && ip2.V4? && ip1.net == ip2.net
    ensures TunnelIPv6(server6, ip1) != NoAddress
    ensures TunnelIPv6(server6, ip1) == TunnelIPv6(server6, ip2) <==> ip1 == ip2
  {
  }
}
