/** The certificates an applied push sends upstream. */
module Announcements {
  import opened Base
  import opened Addresses
  import opened Allocator
  import opened Wire
  import opened Signing
  import opened Admission
  import opened DeviceState
  import opened Addressing
  import opened Membership
  import opened Reapply

  // ---- addresses do not matter ----

  /** The same members but for their clients. */
  predicate SameEntries(ms: seq<Member>, ns: seq<Member>) {
    |ns| == |ms| && forall i :: 0 <= i < |ms| ==> ns[i] == ms[i].(clients := ns[i].clients)
  }

  lemma {:induction false} AssignedEntries(a: Alloc, leases: Leases, ms: seq<Member>)
    requires AssignMembers(a, leases, ms).ok
    ensures SameEntries(ms, AssignMembers(a, leases, ms).done)
  {
    if ms != [] {
      AssignedEntries(a, leases, ms[..|ms| - 1]);
    }
  }

  lemma {:induction false} AnnouncedSame(dms: seq<DsMember>, ms: seq<Member>, ns: seq<Member>)
    requires |ms| == |dms| && SameEntries(ms, ns)
    ensures Announced(dms, ns) == Announced(dms, ms)
  {
    if dms != [] {
      var n := |dms| - 1;
      AnnouncedSame(dms[..n], ms[..n], ns[..n]);
    }
  }

  lemma {:induction false} SitedAnnounce(server6: Address, a: Alloc, leases: Leases, dms: seq<DsMember>,
                                         ms: seq<Member>)
    requires |ms| == |dms| && AssignMembers(a, leases, ms).ok
    ensures var ns := DeriveV6(server6, AssignMembers(a, leases, ms).done);
            |ns| == |dms| && Announced(dms, ns) == Announced(dms, ms)
  {
    AssignedEntries(a, leases, ms);
    AnnouncedSame(dms, ms, DeriveV6(server6, AssignMembers(a, leases, ms).done));
  }

  // ---- what is announced ----

  /** c is the certificate of a non-admin the push brought without one. */
  ghost predicate Fills(dms: seq<DsMember>, ms: seq<Member>, i: nat, c: Certificate) {
    i < |dms| == |ms| && !dms[i].IsAdmin() && dms[i].admittance.None? && ms[i].admittance == Some(c)
  }

  lemma {:induction false} AnnouncedIff(dms: seq<DsMember>, ms: seq<Member>, c: Certificate)
    requires |ms| == |dms|
    ensures c in Announced(dms, ms) <==> exists i :: Fills(dms, ms, i, c)
  {
    if dms != [] {
      var n := |dms| - 1;
      AnnouncedIff(dms[..n], ms[..n], c);
      if c in Announced(dms[..n], ms[..n]) {
        var i :| Fills(dms[..n], ms[..n], i, c);
        assert Fills(dms, ms, i, c);
      }
      if c in Announcement(dms[n], ms[n].admittance) {
        assert Fills(dms, ms, n, c);
      }
      forall i: nat | Fills(dms, ms, i, c)
        ensures c in Announced(dms, ms)
      {
        if i < n {
          assert Fills(dms[..n], ms[..n], i, c);
        }
      }
    }
  }

  lemma {:induction false} AppliedMadeFrom(env: Env, s: State, p: Push, now: Time, finished: Time, addOk: AddOk)
    requires HandlePush(env, s, p, now, finished, addOk).1 == Applied
    ensures AllMadeFrom(p.members, HandlePush(env, s, p, now, finished, addOk).0.members)
  {
    var owner, apps, v, a := AppliedMeans(env, s, p, now, finished, addOk);
    VerifiedMadeFrom(Ctx(env, owner, s.members, apps, now), s.log, p.members);
    AssignedEntries(s.alloc, v.leases, v.members);
  }

  /** The announcements are the certificates of the non-admins pushed without one, and nothing else;
      each is the one its member has, names the member's id and key, and was minted for a vetted member. */
  ghost predicate Vouched(env: Env, owner: string, dms: seq<DsMember>, ms: seq<Member>) {
    && |ms| == |dms|
    && (forall i :: 0 <= i < |ms| && !dms[i].IsAdmin() && dms[i].admittance.None? ==>
          ms[i].admittance.Some? && ms[i].admittance.value in Announced(dms, ms))
    && (forall c :: c in Announced(dms, ms) ==> Admitted(env, owner, c) && exists i :: OwnCert(dms, ms, i, c))
  }

  ghost predicate OwnCert(dms: seq<DsMember>, ms: seq<Member>, i: nat, c: Certificate) {
    Fills(dms, ms, i, c) && c.memberId == ms[i].id && c.identityKey == ms[i].identityKey
  }

  lemma {:induction false} TrustedVouches(env: Env, owner: string, s: State, dms: seq<DsMember>)
    requires Trusted(env, owner, s) && AllMadeFrom(dms, s.members)
    ensures Vouched(env, owner, dms, s.members)
  {
    var ms := s.members;
    forall i | 0 <= i < |ms| && !dms[i].IsAdmin() && dms[i].admittance.None?
      ensures ms[i].admittance.Some? && ms[i].admittance.value in Announced(dms, ms)
    {
      assert MadeFrom(dms[i], ms[i]);
      assert Fills(dms, ms, i, ms[i].admittance.value);
      AnnouncedIff(dms, ms, ms[i].admittance.value);
    }
    forall c | c in Announced(dms, ms)
      ensures Admitted(env, owner, c) && exists i :: OwnCert(dms, ms, i, c)
    {
      AnnouncedIff(dms, ms, c);
      var i: nat :| Fills(dms, ms, i, c);
      assert MadeFrom(dms[i], ms[i]);
      MemberWasVetted(env, owner, s, i);
      assert OwnCert(dms, ms, i, c);
    }
  }

  /** What an applied push announces is vouched for. */
  lemma {:induction false} AnnouncedWereAdmitted(env: Env, owner: string, s: State, p: Push, now: Time, finished: Time,
                                                 addOk: AddOk)
    requires Trusted(env, owner, s) && Valid(s.alloc) && Canonical(s.alloc)
    requires HandlePush(env, s, p, now, finished, addOk).1 == Applied
    ensures Vouched(env, owner, p.members, HandlePush(env, s, p, now, finished, addOk).0.members)
  {
    AppliedMadeFrom(env, s, p, now, finished, addOk);
    PushKeepsTrust(env, owner, s, p, now, finished, addOk);
    TrustedVouches(env, owner, HandlePush(env, s, p, now, finished, addOk).0, p.members);
  }

  /** A lost message heals: the same push, applied again at any later time, announces the same certificates. */
  lemma {:induction false} AnnouncedAgain(env: Env, s: State, p: Push, now: Time, finished: Time, addOk: AddOk,
                              t: State, now': Time, finished': Time, addOk': AddOk)
    requires Agreement(env, s) && DistinctPushIds(p.members)
    requires HandlePush(env, s, p, now, finished, addOk).1 == Applied
    requires Carries(env, HandlePush(env, s, p, now, finished, addOk).0, p, t)
    ensures var (t', verdict) := HandlePush(env, t, p, now', finished', addOk');
            var first := HandlePush(env, s, p, now, finished, addOk).0.members;
            && verdict == Applied && |t'.members| == |first| == |p.members|
            && Announced(p.members, t'.members) == Announced(p.members, first)
  {
    ReapplyChangesNothing(env, s, p, now, finished, addOk, t, now', finished', addOk');
    AppliedMadeFrom(env, s, p, now, finished, addOk);
  }
}
