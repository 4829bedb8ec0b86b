/** Who may be in the ACL: the pinned owner, and members this agent vetted and certified. */
module Membership {
  import opened Base
  import opened Allocator
  import opened Wire
  import opened Acl
  import opened Signing
  import opened Admission
  import opened DeviceState
  import opened Addressing

  /** A non-admin carries a certificate of ours for its own id and key. */
  predicate Certified(env: Env, log: Log, m: Member) {
    m.IsAdmin() || (m.admittance.Some? && VerifyCert(env, log, m.admittance.value, m.id, m.identityKey))
  }

  ghost predicate AllCertified(env: Env, log: Log, ms: seq<Member>) {
    forall i :: 0 <= i < |ms| ==> Certified(env, log, ms[i])
  }

  /** The membership invariant of a paired agent. */
  ghost predicate Trusted(env: Env, owner: string, s: State) {
    && s.pin.Some? && env.decodeKey(s.pin.value) == Some(owner)
    && LogJustified(env, owner, s.log)
    && AllCertified(env, s.log, s.members)
    && PinOk(s.pin, s.members)
    && AllCertified(env, s.log, s.saved) && PinOk(s.pin, s.saved)
  }

  /** What the invariant says of any member: an admin's key is the pin; anyone else was vetted, by a
      chain the pinned owner signed, for exactly this id and key. */
  lemma {:induction false} MemberWasVetted(env: Env, owner: string, s: State, i: nat)
    requires Trusted(env, owner, s) && i < |s.members|
    ensures var m := s.members[i];
            if m.IsAdmin() then Some(m.identityKey) == s.pin
            else m.admittance.Some? && m.admittance.value.memberId == m.id
                 && m.admittance.value.identityKey == m.identityKey && Admitted(env, owner, m.admittance.value)
  {
    var m := s.members[i];
    assert Certified(env, s.log, m);
    if !m.IsAdmin() {
      CertMeansAdmitted(env, owner, s.log, m.admittance.value, m.id, m.identityKey);
    }
  }

  lemma {:induction false} AdmitCertifies(ctx: Ctx, log: Log, dm: DsMember)
    requires LogJustified(ctx.env, ctx.owner, log)
    ensures var (log', r) := Admit(ctx, log, dm);
            && log <= log' && LogJustified(ctx.env, ctx.owner, log')
            && (r.Ok? && !dm.IsAdmin() ==>
                r.value.0.Some? && VerifyCert(ctx.env, log', r.value.0.value, dm.id, dm.identityKey))
  {
    if !dm.IsAdmin() && dm.admittance.None? && dm.join.Some? {
      var inv := VerifyJoin(ctx.env, dm.join.value, dm.identityKey, ctx.owner, ctx.now);
      if inv.Ok? {
        var cert := Mint(ctx.env, dm.id, dm.identityKey, dm.join.value.raw.value, inv.value.allowedAppIds, ctx.now);
        if cert.Ok? {
          MintJustified(ctx.env, log, dm.join.value, dm.id, dm.identityKey, ctx.owner, ctx.now);
        }
      }
    }
  }

  /** Certificates keep verifying as the agent signs more. */
  lemma {:induction false} CertifiedGrows(env: Env, log: Log, log': Log, ms: seq<Member>)
    requires log <= log' && AllCertified(env, log, ms)
    ensures AllCertified(env, log', ms)
  {
  }

  lemma {:induction false} VerifyMemberCertifies(ctx: Ctx, log: Log, dm: DsMember)
    requires LogJustified(ctx.env, ctx.owner, log)
    ensures var (log', r) := VerifyMember(ctx, log, dm);
            && log <= log' && LogJustified(ctx.env, ctx.owner, log')
            && (r.Ok? ==> Certified(ctx.env, log', r.value.0))
  {
    AdmitCertifies(ctx, log, dm);
  }

  lemma {:induction false} VerifyMembersCertifies(ctx: Ctx, log: Log, dms: seq<DsMember>)
    requires LogJustified(ctx.env, ctx.owner, log)
    ensures var v := VerifyMembers(ctx, log, dms);
            && log <= v.log && LogJustified(ctx.env, ctx.owner, v.log) && AllCertified(ctx.env, v.log, v.members)
  {
    if dms != [] {
      var n := |dms| - 1;
      var v := VerifyMembers(ctx, log, dms[..n]);
      VerifyMembersCertifies(ctx, log, dms[..n]);
      if v.ok {
        var (log', r) := VerifyMember(ctx, v.log, dms[n]);
        VerifyMemberCertifies(ctx, v.log, dms[n]);
        CertifiedGrows(ctx.env, v.log, log', v.members);
      }
    }
  }

  /** Only ids, roles, keys and certificates matter; addresses do not. */
  lemma {:induction false} AddressesDoNotMatter(env: Env, log: Log, a: Alloc, ms: seq<Member>, ns: seq<Member>)
    requires SitedMembers(a, ms, ns) && AllCertified(env, log, ms)
    ensures AllCertified(env, log, DeriveV6(env.server6, ns))
  {
  }

  /** Whatever is pushed, whoever pushes it, the invariant holds afterwards. */
  lemma {:induction false} PushKeepsTrust(env: Env, owner: string, s: State, p: Push, now: Time, finished: Time,
                                          addOk: AddOk)
    requires Trusted(env, owner, s) && Valid(s.alloc) && Canonical(s.alloc)
    ensures Trusted(env, owner, HandlePush(env, s, p, now, finished, addOk).0)
  {
    if HandlePush(env, s, p, now, finished, addOk).1 == Applied {
      var owner', apps, v, a := AppliedMeans(env, s, p, now, finished, addOk);
      VerifyMembersCertifies(Ctx(env, owner, s.members, apps, now), s.log, p.members);
      AcceptedAgree(env, s, p, now, owner, apps, v, a);
      AddressesDoNotMatter(env, v.log, a.alloc, v.members, a.done);
    } else {
      UnappliedPush(env, s, p, now, finished, addOk);
      RefusedKeepsTrust(env, owner, s, p, now, finished, addOk);
    }
  }

  lemma {:induction false} RefusedKeepsTrust(env: Env, owner: string, s: State, p: Push, now: Time, finished: Time,
                                             addOk: AddOk)
    requires Trusted(env, owner, s)
    ensures var s' := HandlePush(env, s, p, now, finished, addOk).0;
            LogJustified(env, owner, s'.log) && AllCertified(env, s'.log, s.members)
              && AllCertified(env, s'.log, s.saved)
  {
    var apps := VerifyApps(env, owner, p.apps);
    if apps.Ok? {
      var ctx := Ctx(env, owner, s.members, apps.value, now);
      VerifyMembersCertifies(ctx, s.log, p.members);
      CertifiedGrows(env, s.log, VerifyMembers(ctx, s.log, p.members).log, s.members);
      CertifiedGrows(env, s.log, VerifyMembers(ctx, s.log, p.members).log, s.saved);
    }
  }
}
