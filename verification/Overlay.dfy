/** Per-install overlay addressing: one draw fixes an IPv4 /24 and its IPv6 /64. */
module Overlay {
  import opened Base
  import opened Addresses

  const SUBNET_COUNT: nat := 16384

  /** A CIDR string: unusable as IPv4, or an address and prefix length, and whether the string is
      exactly how the network is printed. */
  datatype Cidr = NotV4 | Cidr4(net: Net24, host: Byte, ones: nat, printed: bool)

  /** The addressing record. IPv6 fields hold the /64's first address and its gateway; NoAddress is the
      empty string. */
  datatype Addressing = Addressing(subnet4: Cidr, gateway4: Address, subnet6: Address, gateway6: Address)

  /** Go's byte(x): the low eight bits. */
  function LowByte(x: int): Byte {
    x % 256
  }

  function Prefix6(b: int, third: int): Octets16 {
    [0xfd, 0x00, 0x00, 0x64, LowByte(b / 256), LowByte(b), LowByte(third / 256), LowByte(third), 0, 0, 0, 0, 0, 0, 0, 0]
  }

  /** v6At: the /64 and its gateway. */
  function V6At(b: int, third: int): (Address, Address) {
    (V6(Prefix6(b, third)), V6(Prefix6(b, third)[15 := 1]))
  }

  function Slash24(net: Net24): Cidr {
    Cidr4(net, 0, 24, true)
  }

  /** subnetAt. */
  function SubnetAt(idx: nat): Addressing
    requires idx < SUBNET_COUNT
  {
    var net := Net24(100, 64 + idx / 256, idx % 256);
    var (s6, g6) := V6At(idx / 256, idx % 256);
    Addressing(Slash24(net), V4(net, 1), s6, g6)
  }

  /** v6FromV4, on the network address. */
  function V6FromV4(net: Net24): (Address, Address) {
    V6At(net.b as int - 64, net.c)
  }

  /** Inside 100.64.0.0/10. */
  predicate InBase(net: Net24) {
    net.a == 100 && 64 <= net.b < 128
  }

  /** validate. */
  predicate Validate(o: Addressing) {
    && o.subnet4.Cidr4? && o.subnet4.ones == 24
    && o.subnet4.printed && o.subnet4.host == 0
    && InBase(o.subnet4.net)
    && o.gateway4 == V4(o.subnet4.net, 1)
    && (o.subnet6, o.gateway6) == V6FromV4(o.subnet4.net)
  }

  /** parseAndMigrate on a decoded file: backfill IPv6 when both fields are absent, then validate. */
  function ParseAndMigrate(o: Addressing): Result<(Addressing, bool)> {
    if o.subnet6 == NoAddress && o.gateway6 == NoAddress then
      if o.subnet4.NotV4? then Rejected
      else
        var (s6, g6) := V6FromV4(o.subnet4.net);
        var p := o.(subnet6 := s6, gateway6 := g6);
        if Validate(p) then Ok((p, true)) else Rejected
    else if Validate(o) then Ok((o, false)) else Rejected
  }

  function Index(net: Net24): int {
    (net.b as int - 64) * 256 + net.c
  }

  /** subnetAt is a bijection from 0..16383 onto the /24s of 100.64.0.0/10. */
  lemma {:induction false} SubnetAtBijection(idx: nat, net: Net24)
    requires idx < SUBNET_COUNT
    ensures InBase(SubnetAt(idx).subnet4.net) && Index(SubnetAt(idx).subnet4.net) == idx
    ensures InBase(net) ==> 0 <= Index(net) < SUBNET_COUNT && SubnetAt(Index(net)).subnet4.net == net
  {
  }

  /** The IPv6 half is recoverable from the IPv4 half. */
  lemma {:induction false} V6Recovered(idx: nat)
    requires idx < SUBNET_COUNT
    ensures V6FromV4(SubnetAt(idx).subnet4.net) == (SubnetAt(idx).subnet6, SubnetAt(idx).gateway6)
  {
  }

  /** Two installs share their IPv4 subnet exactly when they share their IPv6 one. */
  lemma {:induction false} FamiliesCollideTogether(i: nat, j: nat)
    requires i < SUBNET_COUNT && j < SUBNET_COUNT
    ensures SubnetAt(i).subnet4 == SubnetAt(j).subnet4 <==> SubnetAt(i).subnet6 == SubnetAt(j).subnet6
  {
  }

  /** validate accepts exactly what subnetAt can produce. */
  lemma {:induction false} ValidateIffDrawn(o: Addressing)
    ensures Validate(o) <==> exists i: nat :: i < SUBNET_COUNT && o == SubnetAt(i)
  {
    if Validate(o) {
      var net := o.subnet4.net;
      SubnetAtBijection(0, net);
      var i := Index(net);
      V6Recovered(i);
      assert o == SubnetAt(i);
    }
  }

  /** A file from before IPv6 gets the addressing a fresh draw would have given it; anything else is
      accepted unchanged or not at all. */
  lemma {:induction false} BackfillGivesTheDraw(idx: nat, o: Addressing)
    requires idx < SUBNET_COUNT
    ensures ParseAndMigrate(SubnetAt(idx).(subnet6 := NoAddress, gateway6 := NoAddress)) == Ok((SubnetAt(idx), true))
    ensures ParseAndMigrate(SubnetAt(idx)) == Ok((SubnetAt(idx), false))
    ensures ParseAndMigrate(o).Ok? ==> exists i: nat :: i < SUBNET_COUNT && ParseAndMigrate(o).value.0 == SubnetAt(i)
  {
    ValidateIffDrawn(SubnetAt(idx));
    V6Recovered(idx);
    if ParseAndMigrate(o).Ok? {
      ValidateIffDrawn(ParseAndMigrate(o).value.0);
    }
  }

  /** Host derivation on a drawn overlay: gateway to gateway, and hosts of the /24 one to one into the /64. */
  lemma {:induction false} HostsPair(idx: nat, h: Byte, k: Byte)
    requires idx < SUBNET_COUNT
    ensures var o := SubnetAt(idx);
            && DualStack(o.gateway6)
            && TunnelIPv6(o.gateway6, o.gateway4) == o.gateway6
            && TunnelIPv6(o.gateway6, V4(o.subnet4.net, h)).V6?
            && TunnelIPv6(o.gateway6, V4(o.subnet4.net, h)).octets[..8] == o.subnet6.octets[..8]
            && (TunnelIPv6(o.gateway6, V4(o.subnet4.net, h)) == TunnelIPv6(o.gateway6, V4(o.subnet4.net, k)) <==>
                h == k)
  {
  }
}
