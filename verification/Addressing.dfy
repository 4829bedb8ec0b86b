/** One address per key: what a push does to the allocator and the addresses in the ACL. */
module Addressing {
  import opened Base
  import opened Addresses
  import opened Allocator
  import opened Wire
  import opened Acl
  import opened Signing
  import opened DeviceState

  // ---- the invariant ----

  /** The client holds exactly the address the allocator binds to its key, in both families. */
  predicate Agrees(server6: Address, a: Alloc, c: Client) {
    if c.key == "" then c.ip4 == NoAddress && c.ip6 == NoAddress
    else c.key in a.bound && c.ip4 == a.bound[c.key] && c.ip6 == TunnelIPv6(server6, c.ip4)
  }

  ghost predicate AllAgree(server6: Address, a: Alloc, cs: seq<Client>) {
    forall j :: 0 <= j < |cs| ==> Agrees(server6, a, cs[j])
  }

  ghost predicate MembersAgree(server6: Address, a: Alloc, ms: seq<Member>) {
    forall i :: 0 <= i < |ms| ==> AllAgree(server6, a, ms[i].clients)
  }

  ghost predicate Agreement(env: Env, s: State) {
    Valid(s.alloc) && Canonical(s.alloc) && MembersAgree(env.server6, s.alloc, s.members)
  }

  /** Under the invariant, two clients share an IPv4 address exactly when they are one key, and on a
      dual-stack overlay likewise for IPv6. */
  lemma {:induction false} DistinctKeysDistinctAddresses(env: Env, s: State, i: nat, j: nat, i': nat, j': nat)
    requires Agreement(env, s) && Pos(s.members, i, j) && Pos(s.members, i', j')
    requires s.members[i].clients[j].key != "" && s.members[i'].clients[j'].key != ""
    ensures var c, d := s.members[i].clients[j], s.members[i'].clients[j'];
            && c.ip4.V4? && (c.ip4 == d.ip4 <==> c.key == d.key)
            && (DualStack(env.server6) ==> c.ip6.V6? && (c.ip6 == d.ip6 <==> c.key == d.key))
  {
  }

  // ---- address assignment ----

  lemma {:induction false} AssignAddressOk(a: Alloc, leases: Leases, k: Key)
    requires Valid(a) && Canonical(a)
    ensures var (b, ip) := AssignAddress(a, leases, k);
            && Valid(b) && Canonical(b) && Extends(a, b)
            && b.bound.Keys <= a.bound.Keys + {k}
            && (k == "" ==> b == a && ip == Some(NoAddress))
            && (k != "" && ip.Some? ==> k in b.bound && b.bound[k] == ip.value)
            && (k in a.bound && k != "" ==> b == a && ip == Some(a.bound[k]))
  {
    if k in a.bound {
      assert Holdable(a, a.bound[k]);
    }
    if k in leases {
      StepKeeps(a, DoTryAdopt(k, leases[k]));
      TryAdoptSafe(a, k, leases[k]);
    }
    StepKeeps(a, DoAllocate(k));
    AllocateLowestFree(a, k);
  }

  /** d is c at its address in a. */
  predicate Sited(a: Alloc, c: Client, d: Client) {
    if c.key == "" then d == c else c.key in a.bound && d == c.(ip4 := a.bound[c.key])
  }

  ghost predicate SitedAll(a: Alloc, cs: seq<Client>, ds: seq<Client>) {
    |cs| == |ds| && forall j :: 0 <= j < |cs| ==> Sited(a, cs[j], ds[j])
  }

  ghost predicate SitedMembers(a: Alloc, ms: seq<Member>, ns: seq<Member>) {
    |ms| == |ns| && forall i :: 0 <= i < |ms| ==> SitedMember(a, ms[i], ns[i])
  }

  ghost predicate SitedMember(a: Alloc, m: Member, n: Member) {
    SitedAll(a, m.clients, n.clients) && n == m.(clients := n.clients)
  }

  lemma {:induction false} SitedExtends(a: Alloc, b: Alloc, cs: seq<Client>, ds: seq<Client>)
    requires Extends(a, b) && SitedAll(a, cs, ds)
    ensures SitedAll(b, cs, ds)
  {
  }

  lemma {:induction false} ExtendsTransitive(a: Alloc, b: Alloc, c: Alloc)
    requires Extends(a, b) && Extends(b, c)
    ensures Extends(a, c)
  {
  }

  lemma {:induction false} SitedSnoc(a: Alloc, cs: seq<Client>, ds: seq<Client>, c: Client, d: Client)
    requires SitedAll(a, cs, ds) && Sited(a, c, d)
    ensures SitedAll(a, cs + [c], ds + [d])
  {
  }

  lemma {:induction false} AssignClientsOk(a: Alloc, leases: Leases, cs: seq<Client>)
    requires Valid(a) && Canonical(a)
    ensures var r := AssignClients(a, leases, cs);
            && Valid(r.alloc) && Canonical(r.alloc) && Extends(a, r.alloc)
            && (r.ok ==> SitedAll(r.alloc, cs, r.done))
  {
    if cs != [] {
      var n := |cs| - 1;
      AssignClientsOk(a, leases, cs[..n]);
      var r := AssignClients(a, leases, cs[..n]);
      if r.ok {
        var (b, ip) := AssignAddress(r.alloc, leases, cs[n].key);
        AssignAddressOk(r.alloc, leases, cs[n].key);
        ExtendsTransitive(a, r.alloc, b);
        SitedExtends(r.alloc, b, cs[..n], r.done);
        if ip.Some? {
          SitedSnoc(b, cs[..n], r.done, cs[n], if cs[n].key == "" then cs[n] else cs[n].(ip4 := ip.value));
          assert cs == cs[..n] + [cs[n]];
        }
      }
    }
  }

  lemma {:induction false} AssignMembersOk(a: Alloc, leases: Leases, ms: seq<Member>)
    requires Valid(a) && Canonical(a)
    ensures var r := AssignMembers(a, leases, ms);
            && Valid(r.alloc) && Canonical(r.alloc) && Extends(a, r.alloc)
            && (r.ok ==> SitedMembers(r.alloc, ms, r.done))
  {
    if ms != [] {
      var n := |ms| - 1;
      AssignMembersOk(a, leases, ms[..n]);
      var r := AssignMembers(a, leases, ms[..n]);
      if r.ok {
        AssignClientsOk(r.alloc, leases, ms[n].clients);
        var q := AssignClients(r.alloc, leases, ms[n].clients);
        ExtendsTransitive(a, r.alloc, q.alloc);
        forall i | 0 <= i < n
          ensures SitedMember(q.alloc, ms[i], r.done[i])
        {
          assert SitedMember(r.alloc, ms[..n][i], r.done[i]);
          SitedExtends(r.alloc, q.alloc, ms[i].clients, r.done[i].clients);
        }
      }
    }
  }

  // ---- a push keeps the invariant ----

  ghost predicate AllBlank(cs: seq<Client>) {
    forall j :: 0 <= j < |cs| ==> Unaddressed(cs[j])
  }

  ghost predicate MembersBlank(ms: seq<Member>) {
    forall i :: 0 <= i < |ms| ==> AllBlank(ms[i].clients)
  }

  lemma {:induction false} VerifiedClientsBlank(env: Env, log: Log, memberKey: string, id: string, dcs: seq<DsClient>)
    ensures var r := VerifyClients(env, log, memberKey, id, dcs); r.Ok? ==> AllBlank(r.value.0)
  {
    if dcs != [] {
      VerifiedClientsBlank(env, log, memberKey, id, dcs[..|dcs| - 1]);
    }
  }

  lemma {:induction false} MemberBlank(ctx: Ctx, log: Log, dm: DsMember)
    ensures var r := VerifyMember(ctx, log, dm).1; r.Ok? ==> AllBlank(r.value.0.clients)
  {
    if ctx.env.decodeKey(dm.identityKey).Some? {
      VerifiedClientsBlank(ctx.env, Admit(ctx, log, dm).0, ctx.env.decodeKey(dm.identityKey).value, dm.id, dm.clients);
    }
  }

  lemma {:induction false} VerifiedBlank(ctx: Ctx, log: Log, dms: seq<DsMember>)
    ensures MembersBlank(VerifyMembers(ctx, log, dms).members)
  {
    if dms != [] {
      var n := |dms| - 1;
      var v := VerifyMembers(ctx, log, dms[..n]);
      VerifiedBlank(ctx, log, dms[..n]);
      if v.ok {
        var (log', r) := VerifyMember(ctx, v.log, dms[n]);
        MemberBlank(ctx, v.log, dms[n]);
        assert VerifyMembers(ctx, log, dms).members == if r.Ok? then v.members + [r.value.0] else v.members;
      } else {
        assert VerifyMembers(ctx, log, dms) == v;
      }
    }
  }

  lemma {:induction false} DerivedAgree(server6: Address, a: Alloc, ms: seq<Member>, ns: seq<Member>)
    requires Valid(a) && SitedMembers(a, ms, ns) && MembersBlank(ms)
    ensures MembersAgree(server6, a, DeriveV6(server6, ns))
  {
  }

  /** Releasing keys that are not clients any more leaves the clients' agreement alone. */
  lemma {:induction false} ReleaseKeepsAgreement(server6: Address, a: Alloc, ms: seq<Member>, keys: set<Key>)
    requires MembersAgree(server6, a, ms)
    requires keys !! ClientKeys(ms)
    ensures MembersAgree(server6, ReleaseAll(a, keys), ms)
  {
  }

  /** What is known once a push is accepted: members, apps, and where everything came from. */
  ghost predicate Accepted(env: Env, s: State, p: Push, now: Time, owner: string, apps: seq<App>, v: Verified,
                           a: Assigned<Member>) {
    && !(p.deviceId != "" && p.deviceId != env.deviceId) && p.generation >= s.generation
    && s.pin.Some? && env.decodeKey(s.pin.value) == Some(owner)
    && VerifyApps(env, owner, p.apps) == Ok(apps)
    && v == VerifyMembers(Ctx(env, owner, s.members, apps, now), s.log, p.members) && v.ok
    && a == AssignMembers(s.alloc, v.leases, v.members) && a.ok
    && PinOk(s.pin, DeriveV6(env.server6, a.done))
  }

  lemma {:induction false} AppliedMeans(env: Env, s: State, p: Push, now: Time, finished: Time, addOk: AddOk)
    returns (owner: string, apps: seq<App>, v: Verified, a: Assigned<Member>)
    requires HandlePush(env, s, p, now, finished, addOk).1 == Applied
    ensures Accepted(env, s, p, now, owner, apps, v, a)
    ensures HandlePush(env, s, p, now, finished, addOk).0
            == Commit(s.(log := v.log, alloc := a.alloc), DeriveV6(env.server6, a.done), apps, p.generation, now,
                      finished, addOk)
  {
    owner := env.decodeKey(s.pin.value).value;
    apps := VerifyApps(env, owner, p.apps).value;
    v := VerifyMembers(Ctx(env, owner, s.members, apps, now), s.log, p.members);
    a := AssignMembers(s.alloc, v.leases, v.members);
  }

  lemma {:induction false} CommitKeepsAgreement(env: Env, s: State, ms: seq<Member>, apps: seq<App>, gen: int,
                                                now: Time, finished: Time, addOk: AddOk)
    requires Valid(s.alloc) && Canonical(s.alloc)
    requires MembersAgree(env.server6, s.alloc, ms)
    ensures Agreement(env, Commit(s, ms, apps, gen, now, finished, addOk))
  {
    var removed := ClientKeys(s.members) - ClientKeys(ms);
    ReleaseAllValid(s.alloc, removed);
    ReleaseKeepsAgreement(env.server6, s.alloc, ms, removed);
  }

  lemma {:induction false} AppliedKeepsAgreement(env: Env, s: State, p: Push, now: Time, finished: Time, addOk: AddOk)
    requires Agreement(env, s) && HandlePush(env, s, p, now, finished, addOk).1 == Applied
    ensures Agreement(env, HandlePush(env, s, p, now, finished, addOk).0)
  {
    var owner, apps, v, a := AppliedMeans(env, s, p, now, finished, addOk);
    AcceptedAgree(env, s, p, now, owner, apps, v, a);
    CommitKeepsAgreement(env, s.(log := v.log, alloc := a.alloc), DeriveV6(env.server6, a.done), apps, p.generation,
                         now, finished, addOk);
  }

  lemma {:induction false} AcceptedAgree(env: Env, s: State, p: Push, now: Time, owner: string, apps: seq<App>,
                                         v: Verified, a: Assigned<Member>)
    requires Valid(s.alloc) && Canonical(s.alloc) && Accepted(env, s, p, now, owner, apps, v, a)
    ensures Valid(a.alloc) && Canonical(a.alloc) && Extends(s.alloc, a.alloc)
            && SitedMembers(a.alloc, v.members, a.done)
    ensures MembersAgree(env.server6, a.alloc, DeriveV6(env.server6, a.done))
  {
    VerifiedBlank(Ctx(env, owner, s.members, apps, now), s.log, p.members);
    AssignMembersOk(s.alloc, v.leases, v.members);
    DerivedAgree(env.server6, a.alloc, v.members, a.done);
  }

  /** Applied, ignored or refused, a push keeps every client at its allocator address. */
  lemma {:induction false} PushKeepsAgreement(env: Env, s: State, p: Push, now: Time, finished: Time, addOk: AddOk)
    requires Agreement(env, s)
    ensures Agreement(env, HandlePush(env, s, p, now, finished, addOk).0)
  {
    if HandlePush(env, s, p, now, finished, addOk).1 == Applied {
      AppliedKeepsAgreement(env, s, p, now, finished, addOk);
    } else {
      UnappliedPush(env, s, p, now, finished, addOk);
      ExtendsKeepsAgreement(env, s, HandlePush(env, s, p, now, finished, addOk).0);
    }
  }

  lemma {:induction false} ExtendsKeepsAgreement(env: Env, s: State, s': State)
    requires Agreement(env, s) && s'.members == s.members && Valid(s'.alloc) && Canonical(s'.alloc)
             && Extends(s.alloc, s'.alloc)
    ensures Agreement(env, s')
  {
  }

  /** A push that is not applied changes nothing but the allocator, which only gains bindings, and the
      set of things signed, which only grows; an ignored one changes nothing at all. */
  lemma {:induction false} UnappliedPush(env: Env, s: State, p: Push, now: Time, finished: Time, addOk: AddOk)
    requires Valid(s.alloc) && Canonical(s.alloc)
    requires HandlePush(env, s, p, now, finished, addOk).1 != Applied
    ensures var (s', verdict) := HandlePush(env, s, p, now, finished, addOk);
            && s' == s.(alloc := s'.alloc, log := s'.log)
            && Valid(s'.alloc) && Canonical(s'.alloc) && Extends(s.alloc, s'.alloc) && s.log <= s'.log
            && (verdict == Ignored <==>
                !(p.deviceId != "" && p.deviceId != env.deviceId) && p.generation < s.generation)
            && (verdict == Ignored ==> s' == s)
  {
    if s.pin.Some? && env.decodeKey(s.pin.value).Some? {
      var owner := env.decodeKey(s.pin.value).value;
      var apps := VerifyApps(env, owner, p.apps);
      if apps.Ok? {
        var ctx := Ctx(env, owner, s.members, apps.value, now);
        LogGrows(ctx, s.log, p.members);
        var v := VerifyMembers(ctx, s.log, p.members);
        AssignMembersOk(s.alloc, v.leases, v.members);
      }
    }
  }

  lemma {:induction false} LogGrows(ctx: Ctx, log: Log, dms: seq<DsMember>)
    ensures log <= VerifyMembers(ctx, log, dms).log
  {
    if dms != [] {
      LogGrows(ctx, log, dms[..|dms| - 1]);
    }
  }

  /** The applied generation never decreases, and after an applied push it is the push's. */
  lemma {:induction false} GenerationNeverDecreases(env: Env, s: State, p: Push, now: Time, finished: Time,
                                                    addOk: AddOk)
    ensures HandlePush(env, s, p, now, finished, addOk).0.generation >= s.generation
    ensures HandlePush(env, s, p, now, finished, addOk).1 == Applied ==>
            HandlePush(env, s, p, now, finished, addOk).0.generation == p.generation
  {
  }
}
