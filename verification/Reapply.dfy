/** Re-applying a push: the certificates and addresses it produced are reused, so nothing changes. */
module Reapply {
  import opened Base
  import opened Addresses
  import opened Allocator
  import opened Wire
  import opened Acl
  import opened Signing
  import opened Admission
  import opened DeviceState
  import opened Addressing
  import opened Peering

  ghost predicate DistinctPushIds(dms: seq<DsMember>) {
    forall i, j :: 0 <= i < j < |dms| ==> dms[i].id != dms[j].id
  }

  // ---- admission, again ----

  lemma {:induction false} MintVerifies(env: Env, memberId: string, identityKey: string, raw: string, apps: seq<string>,
                                        now: Time, log: Log)
    requires Mint(env, memberId, identityKey, raw, apps, now).Ok?
    ensures var c := Mint(env, memberId, identityKey, raw, apps, now).value;
            CertBytes(c) in log ==> VerifyCert(env, log, c, memberId, identityKey)
  {
  }

  /** An admitted member is admitted the same way later: at any time, against an ACL that holds its
      certificate, by an agent that has signed at least as much. No new certificate is minted. */
  lemma {:induction false} AdmitAgain(ctx: Ctx, log: Log, dm: DsMember, ctx': Ctx, log': Log)
    requires ctx'.env == ctx.env && Admit(ctx, log, dm).1.Ok? && Admit(ctx, log, dm).0 <= log'
    requires Find(ctx'.known, HasId, dm.id).Some?
             && Find(ctx'.known, HasId, dm.id).value.admittance == Admit(ctx, log, dm).1.value.0
    ensures Admit(ctx', log', dm) == (log', Admit(ctx, log, dm).1)
  {
    if !dm.IsAdmin() && dm.admittance.None? {
      var existing := Find(ctx.known, HasId, dm.id);
      if !(existing.Some? && existing.value.admittance.Some?) {
        var inv := VerifyJoin(ctx.env, dm.join.value, dm.identityKey, ctx.owner, ctx.now);
        MintVerifies(ctx.env, dm.id, dm.identityKey, dm.join.value.raw.value, inv.value.allowedAppIds, ctx.now, log');
      }
    }
  }

  /** Whether clients verify does not depend on the log; only which leases count does. */
  lemma {:induction false} ClientsAgain(env: Env, log: Log, log': Log, memberKey: string, id: string,
                                        dcs: seq<DsClient>)
    ensures var r, r' := VerifyClients(env, log, memberKey, id, dcs), VerifyClients(env, log', memberKey, id, dcs);
            r.Ok? == r'.Ok? && (r.Ok? ==> r.value.0 == r'.value.0)
  {
    if dcs != [] {
      ClientsAgain(env, log, log', memberKey, id, dcs[..|dcs| - 1]);
    }
  }

  lemma {:induction false} FinishAgain(ctx: Ctx, log: Log, dm: DsMember, ctx': Ctx, log': Log,
                                       adm: Result<(Option<Certificate>, seq<string>)>)
    requires ctx' == ctx.(known := ctx'.known, now := ctx'.now) && FinishMember(ctx, log, dm, adm).Ok?
    ensures FinishMember(ctx', log', dm, adm).Ok?
            && FinishMember(ctx', log', dm, adm).value.0 == FinishMember(ctx, log, dm, adm).value.0
  {
    ClientsAgain(ctx.env, log, log', ctx.env.decodeKey(dm.identityKey).value, dm.id, dm.clients);
  }

  /** `known` answers every pushed id with the entry verified for it. */
  ghost predicate Remembers(known: seq<Member>, dms: seq<DsMember>, ms: seq<Member>)
    requires |ms| <= |dms|
  {
    forall i :: 0 <= i < |ms| ==>
                  Find(known, HasId, dms[i].id).Some?
                    && Find(known, HasId, dms[i].id).value.admittance == ms[i].admittance
  }

  /** Entry m was made from the pushed member dm. */
  predicate MadeFrom(dm: DsMember, m: Member) {
    m.id == dm.id && m.role == dm.role && m.identityKey == dm.identityKey && (m.admittance.Some? <==> !dm.IsAdmin())
  }

  ghost predicate AllMadeFrom(dms: seq<DsMember>, ms: seq<Member>) {
    |ms| == |dms| && forall i :: 0 <= i < |dms| ==> MadeFrom(dms[i], ms[i])
  }

  lemma {:induction false} OneMadeFrom(ctx: Ctx, log: Log, dm: DsMember)
    requires VerifyMember(ctx, log, dm).1.Ok?
    ensures MadeFrom(dm, VerifyMember(ctx, log, dm).1.value.0)
  {
  }

  lemma {:induction false} VerifyLast(ctx: Ctx, log: Log, dms: seq<DsMember>)
    requires dms != [] && VerifyMembers(ctx, log, dms).ok
    ensures var n := |dms| - 1;
            var v := VerifyMembers(ctx, log, dms[..n]);
            v.ok && VerifyMember(ctx, v.log, dms[n]).1.Ok?
            && VerifyMembers(ctx, log, dms).members == v.members + [VerifyMember(ctx, v.log, dms[n]).1.value.0]
  {
  }

  lemma {:induction false} MadeFromSnoc(dms: seq<DsMember>, ms: seq<Member>, dm: DsMember, m: Member)
    requires AllMadeFrom(dms, ms) && MadeFrom(dm, m)
    ensures AllMadeFrom(dms + [dm], ms + [m])
  {
  }

  lemma {:induction false} VerifiedMadeFrom(ctx: Ctx, log: Log, dms: seq<DsMember>)
    requires VerifyMembers(ctx, log, dms).ok
    ensures AllMadeFrom(dms, VerifyMembers(ctx, log, dms).members)
  {
    if dms != [] {
      var n := |dms| - 1;
      VerifyLast(ctx, log, dms);
      var v := VerifyMembers(ctx, log, dms[..n]);
      VerifiedMadeFrom(ctx, log, dms[..n]);
      OneMadeFrom(ctx, v.log, dms[n]);
      MadeFromSnoc(dms[..n], v.members, dms[n], VerifyMember(ctx, v.log, dms[n]).1.value.0);
      assert dms[..n] + [dms[n]] == dms;
    }
  }

  lemma {:induction false} MemberAgain(ctx: Ctx, log: Log, ctx': Ctx, log': Log, dm: DsMember)
    requires ctx' == ctx.(known := ctx'.known, now := ctx'.now)
    requires VerifyMember(ctx, log, dm).1.Ok? && VerifyMember(ctx, log, dm).0 <= log'
    requires Find(ctx'.known, HasId, dm.id).Some?
             && Find(ctx'.known, HasId, dm.id).value.admittance == VerifyMember(ctx, log, dm).1.value.0.admittance
    ensures var (l, r) := VerifyMember(ctx', log', dm);
            l == log' && r.Ok? && r.value.0 == VerifyMember(ctx, log, dm).1.value.0
  {
    var (log1, adm) := Admit(ctx, log, dm);
    AdmitAgain(ctx, log, dm, ctx', log');
    FinishAgain(ctx, log1, dm, ctx', log', adm);
  }

  lemma {:induction false} RemembersFront(known: seq<Member>, dms: seq<DsMember>, ms: seq<Member>, m: Member)
    requires |ms| + 1 == |dms| && Remembers(known, dms, ms + [m])
    ensures Remembers(known, dms[..|ms|], ms)
    ensures var dm := dms[|ms|];
            Find(known, HasId, dm.id).Some? && Find(known, HasId, dm.id).value.admittance == m.admittance
  {
    var all := ms + [m];
    assert all[|ms|] == m;
    assert forall i :: 0 <= i < |ms| ==> all[i] == ms[i];
  }

  lemma {:induction false} VerifySnoc(ctx: Ctx, log: Log, dms: seq<DsMember>)
    requires dms != []
    requires var v := VerifyMembers(ctx, log, dms[..|dms| - 1]); v.ok && VerifyMember(ctx, v.log, dms[|dms| - 1]).1.Ok?
    ensures var v, w := VerifyMembers(ctx, log, dms[..|dms| - 1]), VerifyMembers(ctx, log, dms);
            var (l, r) := VerifyMember(ctx, v.log, dms[|dms| - 1]);
            w.ok && w.members == v.members + [r.value.0] && w.log == l
  {
  }

  lemma {:induction false} VerifyAgain(ctx: Ctx, log: Log, ctx': Ctx, log': Log, dms: seq<DsMember>)
    requires ctx' == ctx.(known := ctx'.known, now := ctx'.now)
    requires VerifyMembers(ctx, log, dms).ok && VerifyMembers(ctx, log, dms).log <= log'
    requires |VerifyMembers(ctx, log, dms).members| == |dms|
             && Remembers(ctx'.known, dms, VerifyMembers(ctx, log, dms).members)
    ensures var v, v' := VerifyMembers(ctx, log, dms), VerifyMembers(ctx', log', dms);
            v'.ok && v'.members == v.members && v'.log == log'
  {
    if dms != [] {
      var n := |dms| - 1;
      VerifyLast(ctx, log, dms);
      var v := VerifyMembers(ctx, log, dms[..n]);
      VerifySnoc(ctx, log, dms);
      LogGrowsOne(ctx, v.log, dms[n]);
      RemembersFront(ctx'.known, dms, v.members, VerifyMember(ctx, v.log, dms[n]).1.value.0);
      VerifyAgain(ctx, log, ctx', log', dms[..n]);
      MemberAgain(ctx, v.log, ctx', log', dms[n]);
      VerifySnoc(ctx', log', dms);
    }
  }

  lemma {:induction false} LogGrowsOne(ctx: Ctx, log: Log, dm: DsMember)
    ensures log <= VerifyMember(ctx, log, dm).0
  {
  }

  // ---- addresses, again ----

  ghost predicate KeysBound(a: Alloc, cs: seq<Client>) {
    forall j :: 0 <= j < |cs| && cs[j].key != "" ==> cs[j].key in a.bound
  }

  lemma {:induction false} ClientsStay(a: Alloc, leases: Leases, cs: seq<Client>)
    requires Valid(a) && Canonical(a) && KeysBound(a, cs)
    ensures var r := AssignClients(a, leases, cs); r.ok && r.alloc == a && SitedAll(a, cs, r.done)
  {
    if cs != [] {
      var n := |cs| - 1;
      ClientsStay(a, leases, cs[..n]);
      AssignAddressOk(a, leases, cs[n].key);
      var r := AssignClients(a, leases, cs[..n]);
      SitedSnoc(a, cs[..n], r.done, cs[n], if cs[n].key == "" then cs[n] else cs[n].(ip4 := a.bound[cs[n].key]));
      assert cs == cs[..n] + [cs[n]];
    }
  }

  ghost predicate AllKeysBound(a: Alloc, ms: seq<Member>) {
    forall i :: 0 <= i < |ms| ==> KeysBound(a, ms[i].clients)
  }

  lemma {:induction false} MembersStay(a: Alloc, leases: Leases, ms: seq<Member>)
    requires Valid(a) && Canonical(a) && AllKeysBound(a, ms)
    ensures var r := AssignMembers(a, leases, ms); r.ok && r.alloc == a && SitedMembers(a, ms, r.done)
  {
    if ms != [] {
      var n := |ms| - 1;
      MembersStay(a, leases, ms[..n]);
      assert KeysBound(a, ms[n].clients);
      ClientsStay(a, leases, ms[n].clients);
      var r, q := AssignMembers(a, leases, ms[..n]), AssignClients(a, leases, ms[n].clients);
      var done := r.done + [ms[n].(clients := q.done)];
      forall i | 0 <= i < |ms|
        ensures SitedMember(a, ms[i], done[i])
      {
        assert i < n ==> SitedMember(a, ms[..n][i], r.done[i]);
      }
    }
  }

  /** Two allocators that bind the clients' keys alike site them alike. */
  lemma {:induction false} SitedSame(a: Alloc, b: Alloc, ms: seq<Member>, ns: seq<Member>, ns': seq<Member>)
    requires SitedMembers(a, ms, ns) && SitedMembers(b, ms, ns')
    requires forall k :: k in b.bound ==> k in a.bound && a.bound[k] == b.bound[k]
    ensures ns == ns'
  {
    forall i | 0 <= i < |ms|
      ensures ns[i] == ns'[i]
    {
      assert SitedMember(a, ms[i], ns[i]) && SitedMember(b, ms[i], ns'[i]);
      forall j | 0 <= j < |ms[i].clients|
        ensures ns[i].clients[j] == ns'[i].clients[j]
      {
        assert Sited(a, ms[i].clients[j], ns[i].clients[j]) && Sited(b, ms[i].clients[j], ns'[i].clients[j]);
      }
      assert ns[i].clients == ns'[i].clients;
    }
  }

  lemma {:induction false} SitedKeysStayBound(server6: Address, a: Alloc, ms: seq<Member>, ns: seq<Member>,
                                              removed: set<Key>)
    requires SitedMembers(a, ms, ns) && removed !! ClientKeys(DeriveV6(server6, ns))
    ensures AllKeysBound(ReleaseAll(a, removed), ms)
  {
  }

  // ---- the theorem ----

  lemma {:induction false} IdsSurvive(server6: Address, a: Alloc, dms: seq<DsMember>, ms: seq<Member>, ns: seq<Member>)
    requires DistinctPushIds(dms) && |ms| == |dms| && SitedMembers(a, ms, ns)
    requires forall i :: 0 <= i < |dms| ==> ms[i].id == dms[i].id
    ensures Remembers(DeriveV6(server6, ns), dms, ms)
  {
  }

  lemma {:induction false} AcceptedIsApplied(env: Env, t: State, p: Push, now: Time, finished: Time, addOk: AddOk,
                                             owner: string, apps: seq<App>, v: Verified, a: Assigned<Member>)
    requires Accepted(env, t, p, now, owner, apps, v, a)
    ensures HandlePush(env, t, p, now, finished, addOk)
            == (Commit(t.(log := v.log, alloc := a.alloc), DeriveV6(env.server6, a.done), apps, p.generation, now,
                       finished, addOk), Applied)
  {
  }

  /** Committing the members and apps already there. */
  lemma {:induction false} CommitSame(t: State, gen: int, now: Time, finished: Time, addOk: AddOk)
    ensures var t' := Commit(t, t.members, t.apps, gen, now, finished, addOk);
            && t'.members == t.members && t'.apps == t.apps && t'.alloc == t.alloc && t'.log == t.log && t'.pin == t.pin
            && t'.peers == InstallMembers(t.peers, t.members, addOk)
  {
    assert ClientKeys(t.members) - ClientKeys(t.members) == {};
    ReleaseNone(t.alloc);
    assert t.peers - {} == t.peers;
  }

  /** t still has what the push applied in s left behind. */
  ghost predicate Carries(env: Env, s': State, p: Push, t: State) {
    && t.members == s'.members && t.alloc == s'.alloc && t.pin == s'.pin && t.apps == s'.apps
    && t.generation <= p.generation && s'.log <= t.log
  }

  lemma {:induction false} AcceptedAgain(env: Env, s: State, p: Push, now: Time, finished: Time, addOk: AddOk, t: State,
                                         now': Time)
    returns (owner: string, v': Verified, a': Assigned<Member>)
    requires Agreement(env, s) && DistinctPushIds(p.members)
    requires HandlePush(env, s, p, now, finished, addOk).1 == Applied
    requires Carries(env, HandlePush(env, s, p, now, finished, addOk).0, p, t)
    ensures Accepted(env, t, p, now', owner, t.apps, v', a')
    ensures v'.log == t.log && a'.alloc == t.alloc && DeriveV6(env.server6, a'.done) == t.members
  {
    var apps, v, a;
    owner, apps, v, a := AppliedMeans(env, s, p, now, finished, addOk);
    AcceptedAgree(env, s, p, now, owner, apps, v, a);
    var ctx, ctx' := Ctx(env, owner, s.members, apps, now), Ctx(env, owner, t.members, apps, now');
    VerifiedMadeFrom(ctx, s.log, p.members);
    IdsSurvive(env.server6, a.alloc, p.members, v.members, a.done);
    VerifyAgain(ctx, s.log, ctx', t.log, p.members);
    v' := VerifyMembers(ctx', t.log, p.members);
    AssignAgain(env, s, t, v.members, a, v'.leases);
    a' := Assigned(true, t.alloc, a.done);
  }

  /** After a push with distinct member ids was applied, the same push is accepted at any later time,
      even with every invite expired, in any state that still has its members, bindings and pin; it
      changes no member, app, binding or signature, and peers only by installing the same clients: not
      at all, when no AddPeer fails. */
  lemma {:induction false} ReapplyChangesNothing(env: Env, s: State, p: Push, now: Time, finished: Time, addOk: AddOk,
                              t: State, now': Time, finished': Time, addOk': AddOk)
    requires Agreement(env, s) && DistinctPushIds(p.members)
    requires HandlePush(env, s, p, now, finished, addOk).1 == Applied
    requires Carries(env, HandlePush(env, s, p, now, finished, addOk).0, p, t)
    ensures var (t', verdict) := HandlePush(env, t, p, now', finished', addOk');
            && verdict == Applied
            && t'.members == t.members && t'.apps == t.apps && t'.alloc == t.alloc && t'.log == t.log && t'.pin == t.pin
            && t'.peers == InstallMembers(t.peers, t.members, addOk')
            && (PeersAgree(s) && AllAdded(addOk) && AllAdded(addOk')
                && t.peers == HandlePush(env, s, p, now, finished, addOk).0.peers
                ==> t'.peers == t.peers)
  {
    var owner, v', a' := AcceptedAgain(env, s, p, now, finished, addOk, t, now');
    AcceptedIsApplied(env, t, p, now', finished', addOk', owner, t.apps, v', a');
    assert t.(log := v'.log, alloc := a'.alloc) == t;
    CommitSame(t, p.generation, now', finished', addOk');
    if PeersAgree(s) && AllAdded(addOk) && AllAdded(addOk') {
      SecondPass(env, s, p, now, finished, addOk, addOk');
    }
  }

  lemma {:induction false} AssignAgain(env: Env, s: State, t: State, ms: seq<Member>, a: Assigned<Member>,
                                       leases: Leases)
    requires Valid(a.alloc) && Canonical(a.alloc) && SitedMembers(a.alloc, ms, a.done)
    requires t.members == DeriveV6(env.server6, a.done)
    requires t.alloc == ReleaseAll(a.alloc, ClientKeys(s.members) - ClientKeys(t.members))
    ensures AssignMembers(t.alloc, leases, ms) == Assigned(true, t.alloc, a.done)
  {
    var removed := ClientKeys(s.members) - ClientKeys(t.members);
    ReleaseAllValid(a.alloc, removed);
    SitedKeysStayBound(env.server6, a.alloc, ms, a.done, removed);
    MembersStay(t.alloc, leases, ms);
    SitedSame(a.alloc, t.alloc, ms, a.done, AssignMembers(t.alloc, leases, ms).done);
  }

  /** A full pass over the members settles the peer table: a second one changes nothing. */
  lemma {:induction false} SecondPass(env: Env, s: State, p: Push, now: Time, finished: Time, addOk: AddOk,
                                      addOk': AddOk)
    requires Agreement(env, s) && PeersAgree(s) && AllAdded(addOk) && AllAdded(addOk')
    requires HandlePush(env, s, p, now, finished, addOk).1 == Applied
    ensures var s' := HandlePush(env, s, p, now, finished, addOk).0;
            InstallMembers(s'.peers, s'.members, addOk') == s'.peers
  {
    AppliedPushPeers(env, s, p, now, finished, addOk);
    PushKeepsAgreement(env, s, p, now, finished, addOk);
    SettledPeers(env, HandlePush(env, s, p, now, finished, addOk).0, addOk');
  }

  lemma {:induction false} SettledPeers(env: Env, s: State, addOk: AddOk)
    requires Agreement(env, s) && PeersAgree(s) && AllAdded(addOk) && forall k :: k in s.peers <==> Wanted(s.members, k)
    ensures InstallMembers(s.peers, s.members, addOk) == s.peers
  {
    var qs := InstallMembers(s.peers, s.members, addOk);
    InstallMembersOk(s.alloc, env.server6, s.peers, s.members, addOk);
    SamePeers(s.alloc, s.peers, qs);
  }

  lemma {:induction false} SamePeers(a: Alloc, ps: Peers, qs: Peers)
    requires PeersBound(a, ps) && PeersBound(a, qs) && forall k :: k in qs <==> k in ps
    ensures qs == ps
  {
  }
}
