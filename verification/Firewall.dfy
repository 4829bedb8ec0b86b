/** The firewall compiler: ACL to grants to per-family rule chains, and what a chain does to a packet. */
module Firewall {
  import opened Base
  import opened Addresses
  import opened Wire
  import opened Acl

  datatype Family = IPv4 | IPv6

  datatype Proto = Tcp | Udp | Icmp | OtherProto

  /** A packet as one family's table sees it; `Icmp` is that family's own ICMP. */
  datatype Packet = Packet(src: Address, proto: Proto, dport: int, established: bool)

  datatype Rule =
    | AcceptEstablished
    | AcceptIcmp
    | AcceptTcp(port: int)
    | AcceptFrom(src: Address, proto: Proto, port: int)
    | DropAll

  predicate Matches(r: Rule, p: Packet) {
    match r
    case AcceptEstablished => p.established
    case AcceptIcmp => p.proto == Icmp
    case AcceptTcp(port) => p.proto == Tcp && p.dport == port
    case AcceptFrom(src, proto, port) => p.src == src && p.proto == proto && p.dport == port
    case DropAll => true
  }

  /** First match decides; None falls off the end of the chain. */
  function Decide(rules: seq<Rule>, p: Packet): Option<bool> {
    if rules == [] then None
    else if Matches(rules[0], p) then Some(!rules[0].DropAll?)
    else Decide(rules[1..], p)
  }

  // ---- compilation ----

  function PortRules(src: Address, proto: Proto, ports: seq<int>): seq<Rule> {
    if ports == [] then []
    else
      PortRules(src, proto, ports[..|ports| - 1])
      + if ports[|ports| - 1] <= 0 then [] else [AcceptFrom(src, proto, ports[|ports| - 1])]
  }

  function Source(g: PortGrant, f: Family): Address {
    if f == IPv6 then g.ip6 else g.ip4
  }

  function GrantRules(gs: seq<PortGrant>, f: Family): seq<Rule> {
    if gs == [] then []
    else
      var g := gs[|gs| - 1];
      GrantRules(gs[..|gs| - 1], f)
      + if Source(g, f) == NoAddress then []
        else PortRules(Source(g, f), Tcp, g.tcp) + PortRules(Source(g, f), Udp, g.udp)
  }

  function ProxyRules(ports: seq<int>): seq<Rule> {
    if ports == [] then []
    else ProxyRules(ports[..|ports| - 1]) + if ports[|ports| - 1] <= 0 then [] else [AcceptTcp(ports[|ports| - 1])]
  }

  /** The INPUT chain: return traffic, ICMP, the proxy's ports, the grants, and nothing else. */
  function InputRules(ports: seq<int>, gs: seq<PortGrant>, f: Family): seq<Rule> {
    [AcceptEstablished, AcceptIcmp] + ProxyRules(ports) + GrantRules(gs, f) + [DropAll]
  }

  function ForwardRules(gs: seq<PortGrant>, f: Family): seq<Rule> {
    GrantRules(gs, f) + [DropAll]
  }

  // ---- meaning ----

  /** A raw-port app for this port; http and https ride on TCP. */
  predicate Opens(a: App, proto: Proto, port: int) {
    && a.kind == "port" && a.port == port && 1 <= port <= 65535
    && ((proto == Tcp && (a.protocol == "tcp" || a.protocol == "http" || a.protocol == "https"))
        || (proto == Udp && a.protocol == "udp"))
  }

  function ClientSource(c: Client, f: Family): Address {
    if f == IPv6 then c.ip6 else c.ip4
  }

  /** The member owns the packet's source, on a client with an IPv4 address. */
  predicate Owns(m: Member, f: Family, src: Address) {
    src != NoAddress
    && exists j :: 0 <= j < |m.clients| && m.clients[j].ip4 != NoAddress && ClientSource(m.clients[j], f) == src
  }

  predicate Permits(m: Member, proto: Proto, port: int) {
    exists j :: 0 <= j < |m.apps| && Opens(m.apps[j], proto, port)
  }

  /** What the ACL says: an active member owns the source and has a port app for the port and protocol. */
  predicate Granted(ms: seq<Member>, f: Family, p: Packet) {
    exists i :: 0 <= i < |ms| && ms[i].IsActive() && Owns(ms[i], f, p.src) && Permits(ms[i], p.proto, p.dport)
  }

  predicate GrantAccepts(g: PortGrant, f: Family, p: Packet) {
    && Source(g, f) != NoAddress && Source(g, f) == p.src && p.dport > 0
    && ((p.proto == Tcp && p.dport in g.tcp) || (p.proto == Udp && p.dport in g.udp))
  }

  predicate SomeGrantAccepts(gs: seq<PortGrant>, f: Family, p: Packet) {
    exists i :: 0 <= i < |gs| && GrantAccepts(gs[i], f, p)
  }

  lemma {:induction false} DecideConcat(a: seq<Rule>, b: seq<Rule>, p: Packet)
    ensures Decide(a + b, p) == if Decide(a, p).Some? then Decide(a, p) else Decide(b, p)
  {
    if a == [] {
      assert a + b == b;
    } else {
      assert (a + b)[1..] == a[1..] + b;
      DecideConcat(a[1..], b, p);
    }
  }

  lemma {:induction false} DecideOne(r: Rule, p: Packet)
    ensures Decide([r], p) == if Matches(r, p) then Some(!r.DropAll?) else None
  {
  }

  lemma {:induction false} PortRulesMean(src: Address, proto: Proto, ports: seq<int>, p: Packet)
    ensures Decide(PortRules(src, proto, ports), p)
            == if p.src == src && p.proto == proto && p.dport > 0 && p.dport in ports then Some(true) else None
  {
    if ports != [] {
      var n := |ports| - 1;
      PortRulesMean(src, proto, ports[..n], p);
      assert ports == ports[..n] + [ports[n]];
      if ports[n] > 0 {
        DecideConcat(PortRules(src, proto, ports[..n]), [AcceptFrom(src, proto, ports[n])], p);
        DecideOne(AcceptFrom(src, proto, ports[n]), p);
      } else {
        assert PortRules(src, proto, ports) == PortRules(src, proto, ports[..n]);
      }
    }
  }

  lemma {:induction false} ProxyRulesMean(ports: seq<int>, p: Packet)
    ensures Decide(ProxyRules(ports), p) == if p.proto == Tcp && p.dport > 0 && p.dport in ports then Some(true)
            else None
  {
    if ports != [] {
      var n := |ports| - 1;
      ProxyRulesMean(ports[..n], p);
      assert ports == ports[..n] + [ports[n]];
      if ports[n] > 0 {
        DecideConcat(ProxyRules(ports[..n]), [AcceptTcp(ports[n])], p);
        DecideOne(AcceptTcp(ports[n]), p);
      } else {
        assert ProxyRules(ports) == ProxyRules(ports[..n]);
      }
    }
  }

  lemma {:induction false} OneGrantMeans(g: PortGrant, f: Family, p: Packet)
    requires Source(g, f) != NoAddress
    ensures Decide(PortRules(Source(g, f), Tcp, g.tcp) + PortRules(Source(g, f), Udp, g.udp), p)
            == if GrantAccepts(g, f, p) then Some(true) else None
  {
    DecideConcat(PortRules(Source(g, f), Tcp, g.tcp), PortRules(Source(g, f), Udp, g.udp), p);
    PortRulesMean(Source(g, f), Tcp, g.tcp, p);
    PortRulesMean(Source(g, f), Udp, g.udp, p);
  }

  lemma {:induction false} GrantRulesMean(gs: seq<PortGrant>, f: Family, p: Packet)
    ensures Decide(GrantRules(gs, f), p) == if SomeGrantAccepts(gs, f, p) then Some(true) else None
  {
    if gs != [] {
      var n := |gs| - 1;
      var g := gs[n];
      GrantRulesMean(gs[..n], f, p);
      LastGrant(gs, f, p);
      if Source(g, f) == NoAddress {
        assert GrantRules(gs, f) == GrantRules(gs[..n], f);
      } else {
        DecideConcat(GrantRules(gs[..n], f), PortRules(Source(g, f), Tcp, g.tcp) + PortRules(Source(g, f), Udp, g.udp),
                     p);
        OneGrantMeans(g, f, p);
      }
    }
  }

  lemma {:induction false} LastGrant(gs: seq<PortGrant>, f: Family, p: Packet)
    requires gs != []
    ensures SomeGrantAccepts(gs, f, p) <==> SomeGrantAccepts(gs[..|gs| - 1], f, p) || GrantAccepts(gs[|gs| - 1], f, p)
  {
  }

  /** One member's grants accept a packet exactly when the member is active, owns it and permits it. */
  lemma {:induction false} MemberGrantsMean(m: Member, f: Family, p: Packet)
    ensures (exists g :: g in MemberGrants(m) && GrantAccepts(g, f, p)) <==>
            m.IsActive() && Owns(m, f, p.src) && Permits(m, p.proto, p.dport)
  {
    var tcp, udp := TcpPorts(m.apps), UdpPorts(m.apps);
    PermitsPorts(m, p.proto, p.dport);
    if m.IsActive() && Owns(m, f, p.src) && Permits(m, p.proto, p.dport) {
      var j :| 0 <= j < |m.clients| && m.clients[j].ip4 != NoAddress && ClientSource(m.clients[j], f) == p.src;
      var g := PortGrant(m.clients[j].ip4, m.clients[j].ip6, tcp, udp);
      assert g in ClientGrants(m.clients, tcp, udp);
      assert g in MemberGrants(m) && GrantAccepts(g, f, p);
    }
    if g :| g in MemberGrants(m) && GrantAccepts(g, f, p) {
      assert g in ClientGrants(m.clients, tcp, udp);
    }
  }

  lemma {:induction false} PermitsPorts(m: Member, proto: Proto, port: int)
    ensures Permits(m, proto, port) <==>
            port > 0 && ((proto == Tcp && port in TcpPorts(m.apps)) || (proto == Udp && port in UdpPorts(m.apps)))
  {
  }

  lemma {:induction false} GrantsMean(ms: seq<Member>, f: Family, p: Packet)
    ensures SomeGrantAccepts(Grants(ms), f, p) <==> Granted(ms, f, p)
  {
    var gs := Grants(ms);
    if SomeGrantAccepts(gs, f, p) {
      var i :| 0 <= i < |gs| && GrantAccepts(gs[i], f, p);
      assert gs[i] in gs;
      var m :| 0 <= m < |ms| && gs[i] in MemberGrants(ms[m]);
      MemberGrantsMean(ms[m], f, p);
    }
    if Granted(ms, f, p) {
      var m :| 0 <= m < |ms| && ms[m].IsActive() && Owns(ms[m], f, p.src) && Permits(ms[m], p.proto, p.dport);
      MemberGrantsMean(ms[m], f, p);
      var g :| g in MemberGrants(ms[m]) && GrantAccepts(g, f, p);
      assert g in gs;
    }
  }

  /** The compiled chains decide every packet by the grants they were compiled from. */
  lemma {:induction false} ChainsMean(ports: seq<int>, gs: seq<PortGrant>, f: Family, p: Packet)
    ensures Decide(InputRules(ports, gs, f), p)
            == Some(p.established || p.proto == Icmp || (p.proto == Tcp && p.dport > 0 && p.dport in ports)
                    || SomeGrantAccepts(gs, f, p))
    ensures Decide(ForwardRules(gs, f), p) == Some(SomeGrantAccepts(gs, f, p))
  {
    var head, proxy, grants := [AcceptEstablished, AcceptIcmp], ProxyRules(ports), GrantRules(gs, f);
    DecideConcat(head + proxy + grants, [DropAll], p);
    DecideConcat(head + proxy, grants, p);
    DecideConcat(head, proxy, p);
    DecideConcat(grants, [DropAll], p);
    HeadMeans(p);
    ProxyRulesMean(ports, p);
    GrantRulesMean(gs, f, p);
    DecideOne(DropAll, p);
  }

  /** The compiled INPUT chain decides every packet, and accepts it exactly when it is return traffic,
      ICMP, for an allowed proxy TCP port, or granted by the ACL. */
  lemma {:induction false} InputMeaning(ports: seq<int>, ms: seq<Member>, f: Family, p: Packet)
    ensures Decide(InputRules(ports, Grants(ms), f), p)
            == Some(p.established || p.proto == Icmp || (p.proto == Tcp && p.dport > 0 && p.dport in ports)
                    || Granted(ms, f, p))
  {
    ChainsMean(ports, Grants(ms), f, p);
    GrantsMean(ms, f, p);
  }

  lemma {:induction false} HeadMeans(p: Packet)
    ensures Decide([AcceptEstablished, AcceptIcmp], p) == if p.established || p.proto == Icmp then Some(true) else None
  {
    assert [AcceptEstablished, AcceptIcmp][1..] == [AcceptIcmp];
    DecideOne(AcceptIcmp, p);
  }

  /** The FORWARD chain decides every packet and accepts only what the ACL grants. */
  lemma {:induction false} ForwardMeaning(ms: seq<Member>, f: Family, p: Packet)
    ensures Decide(ForwardRules(Grants(ms), f), p) == Some(Granted(ms, f, p))
  {
    ChainsMean([], Grants(ms), f, p);
    GrantsMean(ms, f, p);
  }

  // ---- the firewall against the proxy's own question ----

  /** Every client with an IPv6 address has an IPv4 one, as all the agent's own clients do. */
  ghost predicate Paired(ms: seq<Member>) {
    forall i, j :: Pos(ms, i, j) && ms[i].clients[j].ip6 != NoAddress ==> ms[i].clients[j].ip4 != NoAddress
  }

  function ProtoOf(a: App): Proto {
    if a.protocol == "udp" then Udp else Tcp
  }

  /** A port app that IsPortAppAllowed approves for a source is open to that source, in the table of
      the family under which the source owns the address. */
  lemma {:induction false} AllowedPortAppIsOpen(ms: seq<Member>, ip: Address, slug: string, established: bool)
    requires Paired(ms) && PortApp(ms, ip, slug).Some?
    requires var a := PortApp(ms, ip, slug).value; 1 <= a.port <= 65535 && a.protocol in ["tcp", "udp", "http", "https"]
    ensures var a := PortApp(ms, ip, slug).value;
            var p := Packet(ip, ProtoOf(a), a.port, established);
            Granted(ms, IPv4, p) || Granted(ms, IPv6, p)
  {
  }

  /** Only one member holds the address. */
  ghost predicate SoleHolder(ms: seq<Member>, ip: Address) {
    forall i, j :: 0 <= i < |ms| && 0 <= j < |ms| && Holds(ms[i], ip) && Holds(ms[j], ip) ==> i == j
  }

  /** For an address only one member holds, a packet is granted exactly when the member the index
      names for it is active, sends from it in this family, and permits the port. */
  lemma {:induction false} GrantedIffHolderPermits(ms: seq<Member>, f: Family, p: Packet)
    requires SoleHolder(ms, p.src)
    ensures Granted(ms, f, p) <==>
            var m := Find(ms, Holds, p.src);
            m.Some? && m.value.IsActive() && Owns(m.value, f, p.src) && Permits(m.value, p.proto, p.dport)
  {
  }
}
