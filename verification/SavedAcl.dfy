/** The ACL file. A push, a provision and startup write it; a rolled-back provision does not, so the file
    can list clients the agent has given up. */
module SavedAcl {
  import opened Base
  import opened Addresses
  import opened Allocator
  import opened Wire
  import opened Acl
  import opened Signing
  import opened DeviceState
  import opened Addressing
  import opened Provisioning
  import opened ProvisionFacts
  import R = AgentRuns

  /** The file agrees with a sound allocator on the agent's subnet, though not always with the agent's. */
  ghost predicate BackedBy(env: Env, s: State, a: Alloc) {
    && Valid(a) && Canonical(a) && a.net == s.alloc.net && a.server == s.alloc.server
    && MembersAgree(env.server6, a, s.saved)
  }

  /** Such an allocator exists, and the file lists every client the agent has. */
  ghost predicate Backed(env: Env, s: State) {
    (exists a :: BackedBy(env, s, a)) && ClientKeys(s.members) <= ClientKeys(s.saved)
  }

  /** Right after a save. */
  lemma {:induction false} SavedIsBacked(env: Env, s: State)
    requires Agreement(env, s) && s.saved == s.members
    ensures Backed(env, s)
  {
    assert BackedBy(env, s, s.alloc);
  }

  /** Nothing was saved, and no client was added. */
  lemma {:induction false} StillBacked(env: Env, s: State, t: State)
    requires Backed(env, s) && t.saved == s.saved && ClientKeys(t.members) <= ClientKeys(s.members)
    requires t.alloc.net == s.alloc.net && t.alloc.server == s.alloc.server
    ensures Backed(env, t)
  {
    var a :| BackedBy(env, s, a);
    assert BackedBy(env, t, a);
  }

  /** A rollback adds no client. */
  lemma {:induction false} RollbackAddsNone(env: Env, s: State, id: string, k: Key)
    requires Agreement(env, s) && RolledBack(env, s, id, k, false)
    ensures ClientKeys(Install(env, s, id, k, false).0.members) <= ClientKeys(s.members)
  {
    var (a, ip) := Allocate(s.alloc, k);
    AllocateLowestFree(s.alloc, k);
    StepKeeps(s.alloc, DoAllocate(k));
    AgreeExtends(env.server6, s.alloc, a, s.members);
    var rec := Record(env, k, ip.value);
    AddClientShape(s.members, id, rec);
    AddClientKeys(env.server6, a, s.members, id, rec);
    RollbackClears(s.members, id, rec);
    var ns := AddClient(s.members, id, rec).1;
    forall l | l in ClientKeys(RemoveClient(ns, id, k).1)
      ensures l in ClientKeys(s.members)
    {
      RemovedKeys(ns, id, k, l);
      if l == k {
        InClientKeys(s.members, k);
      }
    }
  }

  lemma {:induction false} RemovedKeys(ms: seq<Member>, id: string, k: Key, l: Key)
    requires l in ClientKeys(RemoveClient(ms, id, k).1)
    ensures l in ClientKeys(ms)
  {
    var ns := RemoveClient(ms, id, k).1;
    var i, j :| 0 <= i < |ns| && 0 <= j < |ns[i].clients| && ns[i].clients[j].key == l && l != "";
    InWithoutKey(ms[i].clients, k, ns[i].clients[j]);
  }

  lemma {:induction false} InstallBacked(env: Env, s: State, id: string, k: Key, addOk: bool)
    requires Agreement(env, s) && Backed(env, s) && FirstMember(s.members, id) < |s.members|
    requires !(RolledBack(env, s, id, k, addOk) && HeldByNamesake(s.members, id, k))
    ensures Backed(env, Install(env, s, id, k, addOk).0)
  {
    var t := Install(env, s, id, k, addOk).0;
    ProvisionAgreementIff(env, s, id, k, addOk);
    var ip := Allocate(s.alloc, k).1;
    if ip.Some? && k != "" {
      AddClientShape(s.members, id, Record(env, k, ip.value));
      if addOk {
        SavedIsBacked(env, t);
      } else {
        RollbackAddsNone(env, s, id, k);
        StillBacked(env, s, t);
      }
    } else {
      StillBacked(env, s, t);
    }
  }

  lemma {:induction false} PushBacked(env: Env, s: State, p: Push, now: Time, finished: Time, addOk: AddOk)
    requires Agreement(env, s) && Backed(env, s)
    ensures Backed(env, HandlePush(env, s, p, now, finished, addOk).0)
  {
    var t := HandlePush(env, s, p, now, finished, addOk).0;
    PushKeepsAgreement(env, s, p, now, finished, addOk);
    if HandlePush(env, s, p, now, finished, addOk).1 == Applied {
      var owner, apps, v, a := AppliedMeans(env, s, p, now, finished, addOk);
      SavedIsBacked(env, t);
    } else {
      UnappliedPush(env, s, p, now, finished, addOk);
      StillBacked(env, s, t);
    }
  }

  /** While addresses agree, every event keeps the file backed, except a rollback onto a namesake. */
  lemma {:induction false} StepBacked(env: Env, s: State, e: R.Event)
    requires Agreement(env, s) && Backed(env, s) && !R.LeavesNamesake(env, s, e)
    ensures Backed(env, R.Step(env, s, e))
  {
    match e
    case PushArrives(p, now, finished, addOk) => PushBacked(env, s, p, now, finished, addOk);
    case ProvisionArrives(req, now, added) =>
      R.ProvisionStep(env, s, e);
      var target := R.Target(env, s, req, now);
      if target.Some? {
        InstallBacked(env, s, target.value.0, target.value.1, added);
        StillBacked(env, Install(env, s, target.value.0, target.value.1, added).0, R.Step(env, s, e));
      } else {
        StillBacked(env, s, R.Step(env, s, e));
      }
    case _ => StillBacked(env, s, R.Step(env, s, e));
  }
}
