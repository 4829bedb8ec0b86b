/** Restoring addresses after the allocator's state was lost, from leases the agent itself signed. */
module LeaseRecovery {
  import opened Base
  import opened Addresses
  import opened Allocator
  import opened Wire
  import opened Acl
  import opened Signing
  import opened Admission
  import opened DeviceState
  import opened Addressing

  /** A past allocation: injective, inside the subnet. */
  ghost predicate PastAllocation(a: Alloc, past: map<Key, Address>) {
    && (forall k :: k in past ==> InSubnet(a, past[k]))
    && (forall k, l :: k in past && l in past && past[k] == past[l] ==> k == l)
  }

  /** So far the allocator holds part of `past` and nothing else. */
  ghost predicate PartOf(a: Alloc, past: map<Key, Address>) {
    && Valid(a) && Canonical(a)
    && (forall k :: k in a.bound ==> k in past && past[k] == a.bound[k])
    && a.used == Reserved(a.net, a.server) + a.bound.Values
  }

  lemma {:induction false} FreshIsPart(net: Net24, server: Address, past: map<Key, Address>)
    ensures PartOf(Fresh(net, server), past)
  {
  }

  lemma {:induction false} Readopt(a: Alloc, past: map<Key, Address>, leases: Leases, k: Key)
    requires PartOf(a, past) && PastAllocation(a, past) && k != "" && k in past && k in leases && leases[k] == past[k]
    ensures var (b, ip) := AssignAddress(a, leases, k);
            ip == Some(past[k]) && PartOf(b, past) && PastAllocation(b, past) && b.bound == a.bound[k := past[k]]
  {
    AssignAddressOk(a, leases, k);
    if k in a.bound {
      assert a.bound == a.bound[k := past[k]];
    } else {
      TryAdoptSafe(a, k, past[k]);
      assert past[k] !in a.bound.Values;
      var b := TryAdopt(a, k, past[k]).0;
      LoadOneKeeps(a, b, k, past[k]);
    }
  }

  ghost predicate Leased(past: map<Key, Address>, leases: Leases, cs: seq<Client>) {
    forall j :: 0 <= j < |cs| && cs[j].key != "" ==>
      cs[j].key in past && cs[j].key in leases && leases[cs[j].key] == past[cs[j].key]
  }

  lemma {:induction false} AssignStep(a: Alloc, leases: Leases, cs: seq<Client>)
    requires cs != [] && AssignClients(a, leases, cs[..|cs| - 1]).ok
    requires AssignAddress(AssignClients(a, leases, cs[..|cs| - 1]).alloc, leases, cs[|cs| - 1].key).1.Some?
    ensures var r := AssignClients(a, leases, cs);
            r.ok && r.alloc == AssignAddress(AssignClients(a, leases, cs[..|cs| - 1]).alloc, leases, cs[|cs| - 1].key).0
  {
  }

  ghost predicate Restoring(a: Alloc, past: map<Key, Address>) {
    PartOf(a, past) && PastAllocation(a, past)
  }

  lemma {:induction false} Revisit(a: Alloc, past: map<Key, Address>, leases: Leases, k: Key)
    requires Restoring(a, past) && (k != "" ==> k in past && k in leases && leases[k] == past[k])
    ensures var (b, ip) := AssignAddress(a, leases, k);
            ip.Some? && Restoring(b, past) && b.bound.Keys == a.bound.Keys + (if k == "" then {} else {k})
  {
    if k != "" {
      Readopt(a, past, leases, k);
    }
  }

  lemma {:induction false} RestoreClients(a: Alloc, past: map<Key, Address>, leases: Leases, cs: seq<Client>)
    requires Restoring(a, past) && Leased(past, leases, cs)
    ensures var r := AssignClients(a, leases, cs);
            r.ok && Restoring(r.alloc, past) && r.alloc.bound.Keys == a.bound.Keys + KeysOf(cs)
  {
    if cs != [] {
      var n := |cs| - 1;
      RestoreClients(a, past, leases, cs[..n]);
      Revisit(AssignClients(a, leases, cs[..n]).alloc, past, leases, cs[n].key);
      AssignStep(a, leases, cs);
      KeysOfSnoc(cs, n);
      assert cs[..n + 1] == cs;
    }
  }

  ghost predicate AllLeased(past: map<Key, Address>, leases: Leases, ms: seq<Member>) {
    forall i :: 0 <= i < |ms| ==> Leased(past, leases, ms[i].clients)
  }

  lemma {:induction false} AssignMemberStep(a: Alloc, leases: Leases, ms: seq<Member>)
    requires ms != [] && AssignMembers(a, leases, ms[..|ms| - 1]).ok
    requires AssignClients(AssignMembers(a, leases, ms[..|ms| - 1]).alloc, leases, ms[|ms| - 1].clients).ok
    ensures var r := AssignMembers(a, leases, ms);
            r.ok && r.alloc == AssignClients(AssignMembers(a, leases, ms[..|ms| - 1]).alloc, leases,
                                             ms[|ms| - 1].clients).alloc
  {
  }

  lemma {:induction false} ClientKeysLast(ms: seq<Member>, bound: set<Key>, before: set<Key>, after: set<Key>)
    requires ms != [] && before == bound + ClientKeys(ms[..|ms| - 1]) && after == before + KeysOf(ms[|ms| - 1].clients)
    ensures after == bound + ClientKeys(ms)
  {
  }

  lemma {:induction false} RestoreMembers(a: Alloc, past: map<Key, Address>, leases: Leases, ms: seq<Member>)
    requires Restoring(a, past) && AllLeased(past, leases, ms)
    ensures var r := AssignMembers(a, leases, ms);
            r.ok && Restoring(r.alloc, past) && r.alloc.bound.Keys == a.bound.Keys + ClientKeys(ms)
  {
    if ms == [] {
      NoClientKeys();
    } else {
      var n := |ms| - 1;
      RestoreMembers(a, past, leases, ms[..n]);
      var r := AssignMembers(a, leases, ms[..n]);
      assert Leased(past, leases, ms[n].clients);
      RestoreClients(r.alloc, past, leases, ms[n].clients);
      AssignMemberStep(a, leases, ms);
      ClientKeysLast(ms, a.bound.Keys, r.alloc.bound.Keys, AssignMembers(a, leases, ms).alloc.bound.Keys);
    }
  }

  lemma {:induction false} NoClientKeys()
    ensures ClientKeys([]) == {}
  {
  }

  // ---- the leases of a push ----

  /** Every registered client of the push comes with a valid lease for its past address. */
  ghost predicate EveryLeaseValid(env: Env, log: Log, past: map<Key, Address>, dms: seq<DsMember>) {
    forall i :: 0 <= i < |dms| ==> LeasesValid(env, log, past, dms[i].clients)
  }

  ghost predicate LeasesValid(env: Env, log: Log, past: map<Key, Address>, dcs: seq<DsClient>) {
    forall j :: 0 <= j < |dcs| && dcs[j].registration.Some? ==>
                  && dcs[j].key in past && dcs[j].lease.Some? && dcs[j].lease.value.ip == past[dcs[j].key]
                  && VerifyLease(env, log, dcs[j].lease.value, dcs[j].key)
  }

  ghost predicate Recalls(past: map<Key, Address>, leases: Leases) {
    forall k :: k in leases ==> k in past && leases[k] == past[k]
  }

  lemma {:induction false} ClientLeases(env: Env, log: Log, log': Log, past: map<Key, Address>, memberKey: string,
                                        id: string, dcs: seq<DsClient>)
    requires LeasesValid(env, log, past, dcs) && log <= log'
    ensures var r := VerifyClients(env, log', memberKey, id, dcs);
            r.Ok? ==> Recalls(past, r.value.1) && Leased(past, r.value.1, r.value.0)
  {
    if dcs != [] {
      ClientLeases(env, log, log', past, memberKey, id, dcs[..|dcs| - 1]);
    }
  }

  lemma {:induction false} MemberLeases(ctx: Ctx, log: Log, log0: Log, past: map<Key, Address>, dms: seq<DsMember>)
    requires EveryLeaseValid(ctx.env, log0, past, dms) && log0 <= log
    ensures var v := VerifyMembers(ctx, log, dms);
            log <= v.log && Recalls(past, v.leases) && AllLeased(past, v.leases, v.members)
  {
    if dms != [] {
      var n := |dms| - 1;
      assert EveryLeaseValid(ctx.env, log0, past, dms[..n]);
      MemberLeases(ctx, log, log0, past, dms[..n]);
      var v := VerifyMembers(ctx, log, dms[..n]);
      if v.ok {
        OneMemberLeases(ctx, v, log0, past, dms[n]);
      }
    }
  }

  lemma {:induction false} OneMemberLeases(ctx: Ctx, v: Verified, log0: Log, past: map<Key, Address>, dm: DsMember)
    requires LeasesValid(ctx.env, log0, past, dm.clients) && log0 <= v.log
    requires Recalls(past, v.leases) && AllLeased(past, v.leases, v.members)
    ensures var (log', r) := VerifyMember(ctx, v.log, dm);
            && v.log <= log'
            && (r.Ok? ==>
                Recalls(past, v.leases + r.value.1)
                && AllLeased(past, v.leases + r.value.1, v.members + [r.value.0]))
  {
    var (log', r) := VerifyMember(ctx, v.log, dm);
    if r.Ok? {
      ClientLeases(ctx.env, log0, log', past, ctx.env.decodeKey(dm.identityKey).value, dm.id, dm.clients);
      forall i | 0 <= i < |v.members|
        ensures Leased(past, v.leases + r.value.1, v.members[i].clients)
      {
        assert Leased(past, v.leases, v.members[i].clients);
      }
    }
  }

  /** From an empty allocator, whatever the ACL still lists, a push whose clients all carry leases from one
      past allocation, in whatever order: if applied, it restores exactly that allocation on the clients
      it lists. That it is not refused for want of an address is Restored. */
  lemma {:induction false} LeasesRestoreAllocation(env: Env, s: State, p: Push, now: Time, finished: Time, addOk: AddOk,
                                                   past: map<Key, Address>)
    requires s.alloc == Fresh(s.alloc.net, s.alloc.server)
    requires PastAllocation(s.alloc, past) && EveryLeaseValid(env, s.log, past, p.members)
    requires HandlePush(env, s, p, now, finished, addOk).1 == Applied
    ensures var s' := HandlePush(env, s, p, now, finished, addOk).0;
            && s'.alloc.bound.Keys == ClientKeys(s'.members)
            && forall k :: k in s'.alloc.bound ==> k in past && s'.alloc.bound[k] == past[k]
  {
    var owner, apps, v, a := AppliedMeans(env, s, p, now, finished, addOk);
    FreshValid(s.alloc.net, s.alloc.server);
    AcceptedAgree(env, s, p, now, owner, apps, v, a);
    Restored(env, s, p, now, owner, apps, v, past);
    SameKeys(env.server6, a.alloc, v.members, a.done);
    NothingReleased(a.alloc, ClientKeys(s.members) - ClientKeys(DeriveV6(env.server6, a.done)));
  }

  /** Whoever was in the ACL before, no key of theirs that disappears had an address to give back. */
  lemma {:induction false} NothingReleased(a: Alloc, ks: set<Key>)
    requires ks !! a.bound.Keys
    ensures ReleaseAll(a, ks) == a
  {
    assert a.bound - ks == a.bound;
  }

  lemma {:induction false} Restored(env: Env, s: State, p: Push, now: Time, owner: string, apps: seq<App>, v: Verified,
                                    past: map<Key, Address>)
    requires s.alloc == Fresh(s.alloc.net, s.alloc.server) && PastAllocation(s.alloc, past)
    requires EveryLeaseValid(env, s.log, past, p.members)
    requires v == VerifyMembers(Ctx(env, owner, s.members, apps, now), s.log, p.members)
    ensures var a := AssignMembers(s.alloc, v.leases, v.members);
            a.ok && PartOf(a.alloc, past) && a.alloc.bound.Keys == ClientKeys(v.members)
  {
    FreshIsPart(s.alloc.net, s.alloc.server, past);
    MemberLeases(Ctx(env, owner, s.members, apps, now), s.log, s.log, past, p.members);
    RestoreMembers(s.alloc, past, v.leases, v.members);
  }

  lemma {:induction false} SameKeys(server6: Address, a: Alloc, ms: seq<Member>, ns: seq<Member>)
    requires SitedMembers(a, ms, ns)
    ensures ClientKeys(DeriveV6(server6, ns)) == ClientKeys(ms)
  {
  }
}
