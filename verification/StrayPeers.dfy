/** A peer that is no ACL client: what the agent does about it, and what it does not. */
module StrayPeers {
  import opened Base
  import opened Prefixes
  import opened Addresses
  import Al = Allocator
  import opened Wire
  import opened Acl
  import opened Signing
  import opened DeviceState
  import opened Addressing
  import opened Provisioning
  import opened ProvisionFacts
  import opened Membership
  import opened Peering
  import opened AgentRuns
  import opened SavedAcl
  import opened Startup
  import LR = LeaseRecovery
  import Re = Restarts

  /** k is installed at ip though nobody lists it. */
  ghost predicate Stray(s: State, k: Al.Key, ip: Address) {
    k in s.peers && s.peers[k] == ip && k !in ClientKeys(s.members)
  }

  predicate PushLists(dms: seq<DsMember>, k: Al.Key) {
    exists i, j :: 0 <= i < |dms| && 0 <= j < |dms[i].clients| && dms[i].clients[j].key == k
  }

  /** The event is about k: a push that lists it, or a provision of it. */
  predicate Names(env: Env, s: State, e: Event, k: Al.Key) {
    match e
    case PushArrives(p, now, finished, addOk) => PushLists(p.members, k)
    case ProvisionArrives(req, now, added) => var t := Target(env, s, req, now); t.Some? && t.value.1 == k
    case _ => false
  }

  // ---- a push that does not list the key ----

  lemma {:induction false} VerifiedKeys(env: Env, log: Log, memberKey: string, id: string, dcs: seq<DsClient>,
                                        k: Al.Key)
    requires forall j :: 0 <= j < |dcs| ==> dcs[j].key != k
    ensures var r := VerifyClients(env, log, memberKey, id, dcs); r.Ok? ==> k !in KeysOf(r.value.0)
  {
    if dcs != [] {
      VerifiedKeys(env, log, memberKey, id, dcs[..|dcs| - 1], k);
    }
  }

  lemma {:induction false} MemberKeys(ctx: Ctx, log: Log, dm: DsMember, k: Al.Key)
    requires forall j :: 0 <= j < |dm.clients| ==> dm.clients[j].key != k
    ensures var r := VerifyMember(ctx, log, dm).1; r.Ok? ==> k !in KeysOf(r.value.0.clients)
  {
    var (log', r) := VerifyMember(ctx, log, dm);
    if r.Ok? {
      VerifiedKeys(ctx.env, log', ctx.env.decodeKey(dm.identityKey).value, dm.id, dm.clients, k);
    }
  }

  lemma {:induction false} PushedKeys(ctx: Ctx, log: Log, dms: seq<DsMember>, k: Al.Key)
    requires !PushLists(dms, k)
    ensures k !in ClientKeys(VerifyMembers(ctx, log, dms).members)
  {
    if dms != [] {
      var n := |dms| - 1;
      assert !PushLists(dms[..n], k);
      PushedKeys(ctx, log, dms[..n], k);
      var v := VerifyMembers(ctx, log, dms[..n]);
      assert forall j :: 0 <= j < |dms[n].clients| ==> dms[n].clients[j].key != k;
      MemberKeys(ctx, v.log, dms[n], k);
      var r := VerifyMember(ctx, v.log, dms[n]).1;
      if v.ok && r.Ok? {
        ClientKeysSnoc(v.members, r.value.0);
      }
    }
  }

  lemma {:induction false} InstallClientsLeaves(ps: Peers, cs: seq<Client>, i: nat, addOk: AddOk, k: Al.Key)
    requires k !in KeysOf(cs) && k in ps
    ensures var qs := InstallClients(ps, cs, i, addOk); k in qs && qs[k] == ps[k]
  {
    if cs != [] {
      var n := |cs| - 1;
      KeysOfSnoc(cs, n);
      assert cs[..n + 1] == cs;
      InstallClientsLeaves(ps, cs[..n], i, addOk, k);
    }
  }

  lemma {:induction false} InstallMembersLeaves(ps: Peers, ms: seq<Member>, addOk: AddOk, k: Al.Key)
    requires k !in ClientKeys(ms) && k in ps
    ensures var qs := InstallMembers(ps, ms, addOk); k in qs && qs[k] == ps[k]
  {
    if ms != [] {
      var n := |ms| - 1;
      ClientKeysSnoc(ms[..n], ms[n]);
      assert ms[..n] + [ms[n]] == ms;
      InstallMembersLeaves(ps, ms[..n], addOk, k);
      if ms[n].status != "suspended" {
        InstallClientsLeaves(InstallMembers(ps, ms[..n], addOk), ms[n].clients, n, addOk, k);
      }
    }
  }

  lemma {:induction false} PushKeepsStray(env: Env, s: State, p: Push, now: Time, finished: Time, addOk: AddOk,
                                          k: Al.Key, ip: Address)
    requires AllocSound(s) && Stray(s, k, ip) && !PushLists(p.members, k)
    ensures Stray(HandlePush(env, s, p, now, finished, addOk).0, k, ip)
  {
    if HandlePush(env, s, p, now, finished, addOk).1 == Applied {
      var owner, apps, v, a := AppliedMeans(env, s, p, now, finished, addOk);
      AcceptedAgree(env, s, p, now, owner, apps, v, a);
      PushedKeys(Ctx(env, owner, s.members, apps, now), s.log, p.members, k);
      LR.SameKeys(env.server6, a.alloc, v.members, a.done);
      var ms := DeriveV6(env.server6, a.done);
      InstallMembersLeaves(s.peers - (ClientKeys(s.members) - ClientKeys(ms)), ms, addOk, k);
    } else {
      UnappliedPush(env, s, p, now, finished, addOk);
    }
  }

  // ---- a provision of another key ----

  lemma {:induction false} AddsOnlyItsKey(ms: seq<Member>, id: string, rec: Client, k: Al.Key)
    requires k != rec.key && k !in ClientKeys(ms)
    ensures k !in ClientKeys(AddClient(ms, id, rec).1)
    ensures k !in ClientKeys(RemoveClient(AddClient(ms, id, rec).1, id, rec.key).1)
  {
    if rec.key != "" && FirstMember(ms, id) < |ms| {
      AddClientShape(ms, id, rec);
      var ns := AddClient(ms, id, rec).1;
      forall i | 0 <= i < |ms|
        ensures !HasKey(ns[i], k)
      {
        InClientKeys(ms, k);
        PutKeys(ms[i], rec);
        KeptKeys(ms[i], rec, k);
      }
      InClientKeys(ns, k);
      RemoveAddsNone(ns, id, rec.key, k);
    } else {
      NothingAdded(ms, id, rec, k);
    }
  }

  lemma {:induction false} KeptKeys(m: Member, rec: Client, k: Al.Key)
    ensures HasKey(m.(clients := Kept(m.clients, rec)), k) ==> HasKey(m, k)
  {
    var n := m.(clients := Kept(m.clients, rec));
    if HasKey(n, k) {
      var j :| 0 <= j < |n.clients| && n.clients[j].key == k;
      InKept(m.clients, rec, n.clients[j]);
    }
  }

  lemma {:induction false} RemoveAddsNone(ms: seq<Member>, id: string, l: Al.Key, k: Al.Key)
    requires k !in ClientKeys(ms)
    ensures k !in ClientKeys(RemoveClient(ms, id, l).1)
  {
    var ns := RemoveClient(ms, id, l).1;
    if k in ClientKeys(ns) {
      var i, j :| 0 <= i < |ns| && 0 <= j < |ns[i].clients| && ns[i].clients[j].key == k && k != "";
      InWithoutKey(ms[i].clients, l, ns[i].clients[j]);
    }
  }

  lemma {:induction false} NothingAdded(ms: seq<Member>, id: string, rec: Client, k: Al.Key)
    requires k !in ClientKeys(ms) && (rec.key == "" || FirstMember(ms, id) == |ms|)
    ensures k !in ClientKeys(AddClient(ms, id, rec).1)
    ensures k !in ClientKeys(RemoveClient(AddClient(ms, id, rec).1, id, rec.key).1)
  {
    var ns := AddClient(ms, id, rec).1;
    FirstMemberStripped(ms, id, rec);
    if rec.key != "" && k in ClientKeys(ns) {
      var i, j :| 0 <= i < |ns| && 0 <= j < |ns[i].clients| && ns[i].clients[j].key == k && k != "";
      InKept(ms[i].clients, rec, ns[i].clients[j]);
    }
    RemoveAddsNone(ns, id, rec.key, k);
  }

  lemma {:induction false} InstallKeepsStray(env: Env, s: State, id: string, l: Al.Key, addOk: bool, k: Al.Key,
                                             ip: Address)
    requires Stray(s, k, ip) && l != k
    ensures Stray(Install(env, s, id, l, addOk).0, k, ip)
  {
    var got := Al.Allocate(s.alloc, l).1;
    if got.Some? {
      AddsOnlyItsKey(s.members, id, Record(env, l, got.value), k);
    }
  }

  lemma {:induction false} StepKeepsStray(env: Env, s: State, e: Event, k: Al.Key, ip: Address)
    requires AllocSound(s) && Stray(s, k, ip) && !Names(env, s, e, k)
    ensures Stray(Step(env, s, e), k, ip)
  {
    match e
    case PushArrives(p, now, finished, addOk) => PushKeepsStray(env, s, p, now, finished, addOk, k, ip);
    case ProvisionArrives(req, now, added) =>
      ProvisionStep(env, s, e);
      var target := Target(env, s, req, now);
      if target.Some? {
        InstallKeepsStray(env, s, target.value.0, target.value.1, added, k, ip);
      }
    case _ =>
  }

  // ---- runs ----

  ghost function NamesAfter(env: Env, s: State, k: Al.Key): (seq<Event>, Event) -> bool {
    (evs: seq<Event>, e: Event) => Names(env, Run(env, s, evs), e, k)
  }

  /** A stray peer stays installed through every run that does not push or provision its key: through
      every push, every heartbeat and every liveness check, tripping or not. */
  lemma {:induction false} StrayStays(env: Env, s: State, evs: seq<Event>, k: Al.Key, ip: Address)
    requires AllocSound(s) && Stray(s, k, ip) && Harmless(evs, NamesAfter(env, s, k))
    ensures AllocSound(Run(env, s, evs)) && Stray(Run(env, s, evs), k, ip)
  {
    if evs != [] {
      var n := |evs| - 1;
      var front := evs[..n];
      forall i | 0 <= i < n
        ensures !NamesAfter(env, s, k)(front[..i], front[i])
      {
        assert front[..i] == evs[..i];
        assert !NamesAfter(env, s, k)(evs[..i], evs[i]);
      }
      StrayStays(env, s, front, k, ip);
      assert !NamesAfter(env, s, k)(evs[..n], evs[n]);
      StepKeepsStray(env, Run(env, s, front), evs[n], k, ip);
      StepAllocSound(env, Run(env, s, front), evs[n]);
    }
  }

  /** A restart clears it exactly if no active member of the ACL file lists it: a rollback is not saved, so
      the file of an agent that saved nothing since brings the peer back. */
  lemma {:induction false} RestartClearsStrayIff(env: Env, owner: string, s: State, b: Al.Alloc, boot: Time,
                                                 addOk: AddOk,
                                                 k: Al.Key)
    requires Trusted(env, owner, s) && Backed(env, s) && Re.LoadedOn(s.alloc, b) && AllAdded(addOk)
    ensures k !in Re.Restart(env, s, b, boot, addOk).peers <==> k !in ActiveKeys(s.saved)
  {
    Re.RestartedPeers(env, owner, s, b, boot, addOk);
  }

  /** The rollback that makes one: a failed re-provision of a key that is a peer and, once its record
      is gone, nobody's client. */
  lemma {:induction false} RollbackLeavesStray(env: Env, s: State, id: string, k: Al.Key)
    requires RolledBack(env, s, id, k, false) && k in s.peers && !HeldByNamesake(s.members, id, k)
    ensures Stray(Install(env, s, id, k, false).0, k, s.peers[k])
  {
    var rec := Record(env, k, Al.Allocate(s.alloc, k).1.value);
    AddClientShape(s.members, id, rec);
    RollbackClears(s.members, id, rec);
  }
}
