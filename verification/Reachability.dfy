/** From a pushed ACL to packets: who can reach which port, stated by client key. */
module Reachability {
  import opened Base
  import opened Addresses
  import opened Allocator
  import opened Wire
  import opened Acl
  import opened Signing
  import opened DeviceState
  import opened Addressing
  import opened Firewall

  function OverlaySource(env: Env, f: Family, ip: Address): Address {
    if f == IPv6 then TunnelIPv6(env.server6, ip) else ip
  }

  /** Under address agreement, a member owns the address bound to a key exactly when it lists the key. */
  lemma {:induction false} OwnsIffListsKey(env: Env, s: State, f: Family, i: nat, k: Key)
    requires Agreement(env, s) && i < |s.members| && k != "" && k in s.alloc.bound
             && (f == IPv6 ==> DualStack(env.server6))
    ensures Owns(s.members[i], f, OverlaySource(env, f, s.alloc.bound[k])) <==> HasKey(s.members[i], k)
  {
  }

  /** Some active member lists the key and has a port app for this port and protocol. */
  predicate KeyPermitted(ms: seq<Member>, k: Key, proto: Proto, port: int) {
    exists i :: 0 <= i < |ms| && ms[i].IsActive() && HasKey(ms[i], k) && Permits(ms[i], proto, port)
  }

  lemma {:induction false} GrantedIffKeyPermitted(env: Env, s: State, f: Family, k: Key, proto: Proto, port: int,
                                                  established: bool)
    requires Agreement(env, s) && k != "" && k in s.alloc.bound && (f == IPv6 ==> DualStack(env.server6))
    ensures Granted(s.members, f, Packet(OverlaySource(env, f, s.alloc.bound[k]), proto, port, established))
            <==> KeyPermitted(s.members, k, proto, port)
  {
  }

  /** Right after an applied push, over either family of a dual-stack overlay: a new TCP or UDP packet
      from a client's address gets through INPUT exactly when it is for a proxy port or some active
      member lists that client and has a port app for it; through FORWARD exactly in the latter case. */
  lemma {:induction false} AppliedPushReachability(env: Env, s: State, p: Push, now: Time, finished: Time, addOk: AddOk,
                                ports: seq<int>, f: Family, k: Key, proto: Proto, port: int)
    requires Agreement(env, s) && HandlePush(env, s, p, now, finished, addOk).1 == Applied
    requires k != "" && k in HandlePush(env, s, p, now, finished, addOk).0.alloc.bound
    requires (f == IPv6 ==> DualStack(env.server6)) && (proto == Tcp || proto == Udp)
    ensures var s' := HandlePush(env, s, p, now, finished, addOk).0;
            var packet := Packet(OverlaySource(env, f, s'.alloc.bound[k]), proto, port, false);
            && Decide(InputRules(ports, s'.grants, f), packet)
               == Some((proto == Tcp && port > 0 && port in ports) || KeyPermitted(s'.members, k, proto, port))
            && Decide(ForwardRules(s'.grants, f), packet) == Some(KeyPermitted(s'.members, k, proto, port))
  {
    var s' := HandlePush(env, s, p, now, finished, addOk).0;
    PushKeepsAgreement(env, s, p, now, finished, addOk);
    AppliedGrants(env, s, p, now, finished, addOk);
    var packet := Packet(OverlaySource(env, f, s'.alloc.bound[k]), proto, port, false);
    GrantedIffKeyPermitted(env, s', f, k, proto, port, false);
    InputMeaning(ports, s'.members, f, packet);
    ForwardMeaning(s'.members, f, packet);
  }

  lemma {:induction false} AppliedGrants(env: Env, s: State, p: Push, now: Time, finished: Time, addOk: AddOk)
    requires HandlePush(env, s, p, now, finished, addOk).1 == Applied
    ensures var s' := HandlePush(env, s, p, now, finished, addOk).0; s'.grants == Grants(s'.members)
  {
  }

  /** The address of a key and its IPv6 partner are treated alike. */
  lemma {:induction false} FamiliesAgree(env: Env, s: State, k: Key, proto: Proto, port: int)
    requires Agreement(env, s) && DualStack(env.server6) && k != "" && k in s.alloc.bound
    ensures Granted(s.members, IPv4, Packet(s.alloc.bound[k], proto, port, false))
            <==> Granted(s.members, IPv6, Packet(TunnelIPv6(env.server6, s.alloc.bound[k]), proto, port, false))
  {
  }
}
