/** Where everything in the ACL comes from, at every moment of an agent's life. */
module Provenance {
  import opened Base
  import opened Prefixes
  import opened Addresses
  import opened Allocator
  import opened Wire
  import opened Acl
  import opened Signing
  import opened DeviceState
  import opened Addressing
  import opened Membership
  import opened Provisioning
  import opened ProvisionFacts
  import opened Startup
  import opened Restarts
  import opened Grounds
  import opened PushGrounds
  import opened Commands
  import opened Lives
  import R = AgentRuns
  import T = Text

  ghost predicate AppSigned(env: Env, owner: string, a: App) {
    exists e: Envelope<AppPayload> :: AppSaid(env, owner, e, a)
  }

  /** Active, or as the owner has signed. */
  ghost predicate StatusSigned(env: Env, owner: string, m: Member) {
    m.status == "active" || exists e: Envelope<StatusPayload> :: StatusSaid(env, owner, e, m.id, m.status)
  }

  /** The apps the owner has signed for it; or the whole catalogue, for an admin; or what its certificate
      lists, for anybody else. */
  ghost predicate AppsSigned(env: Env, owner: string, apps: seq<App>, m: Member) {
    || (exists e: Envelope<PermissionsPayload>, ids: seq<string> ::
          PermissionsSaid(env, owner, e, m.id, ids) && Selected(apps, ids, m.apps))
    || (if m.role == "admin" || m.role == "owner" then m.apps == apps
        else m.admittance.Some? && Selected(apps, m.admittance.value.initialApps, m.apps))
  }

  /** The holder of this identity key has, as this member, registered the client key or asked for it to be
      provisioned. */
  ghost predicate Claims(env: Env, key: string, id: string, k: Key) {
    || (exists e: Envelope<RegisterPayload> :: Registered(env, key, id, e, k))
    || (exists req: ProvisionReq :: Asked(env, key, id, req, k))
  }

  predicate Asked(env: Env, key: string, id: string, req: ProvisionReq, k: Key) {
    && (req.clientKey == k || req.clientKey == "")
    && req.cmd.signerId == id && req.cmd.signature != "" && req.cmd.canon.Some?
    && env.verify(key, req.cmd.canon.value, req.cmd.signature)
    && req.cmd.intent == "wg:provision-" + id + "-" + req.clientId + "-" + req.nonce + "-" + T.Decimal(req.cmd.ts)
  }

  /** Some member of that id has claimed the client key. */
  ghost predicate Claimed(env: Env, ms: seq<Member>, id: string, k: Key) {
    exists j :: 0 <= j < |ms| && ms[j].id == id && HolderClaims(env, ms[j], k)
  }

  ghost predicate HolderClaims(env: Env, m: Member, k: Key) {
    env.decodeKey(m.identityKey).Some? && Claims(env, env.decodeKey(m.identityKey).value, m.id, k)
  }

  ghost predicate ClientsClaimed(env: Env, ms: seq<Member>, m: Member) {
    forall k :: HasKey(m, k) ==> Claimed(env, ms, m.id, k)
  }

  ghost predicate Sourced(env: Env, owner: string, apps: seq<App>, ms: seq<Member>) {
    forall i :: 0 <= i < |ms| ==>
      StatusSigned(env, owner, ms[i]) && AppsSigned(env, owner, apps, ms[i]) && ClientsClaimed(env, ms, ms[i])
  }

  /** Everything in the ACL, in memory and in the file, comes from somebody entitled to say it. */
  ghost predicate AllSourced(env: Env, owner: string, s: State) {
    && (forall i :: 0 <= i < |s.apps| ==> AppSigned(env, owner, s.apps[i]))
    && Sourced(env, owner, s.apps, s.members) && Sourced(env, owner, s.apps, s.saved)
  }

  // ---- edits of clients ----

  /** The same people, and nobody has a new client key except that those of this id may have k. */
  ghost predicate GainsAtMost(ms: seq<Member>, ns: seq<Member>, id: string, k: Key) {
    SamePeople(ms, ns)
    && forall i, l :: 0 <= i < |ms| && HasKey(ns[i], l) ==> HasKey(ms[i], l) || (ms[i].id == id && l == k)
  }

  lemma {:induction false} ClaimCarries(env: Env, ms: seq<Member>, ns: seq<Member>, id: string, k: Key)
    requires SamePeople(ms, ns) && Claimed(env, ms, id, k)
    ensures Claimed(env, ns, id, k)
  {
    var j :| 0 <= j < |ms| && ms[j].id == id && HolderClaims(env, ms[j], k);
    assert ns[j].id == id && HolderClaims(env, ns[j], k);
  }

  lemma {:induction false} SourcedCarries(env: Env, owner: string, apps: seq<App>, ms: seq<Member>, ns: seq<Member>,
                                          id: string, k: Key)
    requires Sourced(env, owner, apps, ms) && GainsAtMost(ms, ns, id, k) && (k != "" ==> Claimed(env, ms, id, k))
    ensures Sourced(env, owner, apps, ns)
  {
    forall i | 0 <= i < |ns|
      ensures StatusSigned(env, owner, ns[i]) && AppsSigned(env, owner, apps, ns[i]) && ClientsClaimed(env, ns, ns[i])
    {
      MemberCarries(env, owner, apps, ms, ns, id, k, i);
    }
  }

  lemma {:induction false} MemberCarries(env: Env, owner: string, apps: seq<App>, ms: seq<Member>, ns: seq<Member>,
                                         id: string, k: Key, i: nat)
    requires Sourced(env, owner, apps, ms) && GainsAtMost(ms, ns, id, k) && (k != "" ==> Claimed(env, ms, id, k))
    requires i < |ns|
    ensures StatusSigned(env, owner, ns[i]) && AppsSigned(env, owner, apps, ns[i]) && ClientsClaimed(env, ns, ns[i])
  {
    assert ns[i] == ms[i].(clients := ns[i].clients);
    assert StatusSigned(env, owner, ms[i]) && AppsSigned(env, owner, apps, ms[i]) && ClientsClaimed(env, ms, ms[i]);
    forall l | HasKey(ns[i], l)
      ensures Claimed(env, ns, ns[i].id, l)
    {
      assert HasKey(ms[i], l) || (ms[i].id == id && l == k);
      ClaimCarries(env, ms, ns, ms[i].id, l);
    }
  }

  lemma {:induction false} AddGains(ms: seq<Member>, id: string, rec: Client)
    ensures GainsAtMost(ms, AddClient(ms, id, rec).1, id, rec.key)
  {
    AddRemoveSamePeople(ms, id, rec);
    var st, ns := StripOthers(ms, id, rec), AddClient(ms, id, rec).1;
    forall i, l | 0 <= i < |ms| && HasKey(ns[i], l)
      ensures HasKey(ms[i], l) || (ms[i].id == id && l == rec.key)
    {
      if rec.key != "" {
        if HasKey(st[i], l) {
          StripAdds(ms, id, rec, i, l);
        } else {
          assert i == FirstMember(st, id);
          PutAdds(st[i].clients, rec, ns[i], l);
        }
      }
    }
  }

  lemma {:induction false} StripAdds(ms: seq<Member>, id: string, rec: Client, i: nat, l: Key)
    requires i < |ms| && HasKey(StripOthers(ms, id, rec)[i], l)
    ensures HasKey(ms[i], l)
  {
    var m := StripOthers(ms, id, rec)[i];
    var j :| 0 <= j < |m.clients| && m.clients[j].key == l;
    InKept(ms[i].clients, rec, m.clients[j]);
  }

  lemma {:induction false} PutAdds(cs: seq<Client>, rec: Client, m: Member, l: Key)
    requires m.clients == PutClient(cs, rec) && HasKey(m, l)
    requires forall j :: 0 <= j < |cs| ==> cs[j].key != l
    ensures l == rec.key
  {
  }

  lemma {:induction false} RemoveGains(ms: seq<Member>, ns: seq<Member>, id: string, k: Key)
    requires GainsAtMost(ms, ns, id, k)
    ensures GainsAtMost(ms, RemoveClient(ns, id, k).1, id, k)
  {
    var rs := RemoveClient(ns, id, k).1;
    assert SamePeople(ns, rs);
    forall i, l | 0 <= i < |ms| && HasKey(rs[i], l)
      ensures HasKey(ms[i], l) || (ms[i].id == id && l == k)
    {
      var j :| 0 <= j < |rs[i].clients| && rs[i].clients[j].key == l;
      InWithoutKey(ns[i].clients, k, rs[i].clients[j]);
      assert rs[i].clients[j] in ns[i].clients;
      assert HasKey(ns[i], l);
    }
  }

  lemma {:induction false} InstallGains(env: Env, s: State, id: string, k: Key, addOk: bool)
    ensures var t := Install(env, s, id, k, addOk).0;
            && t.apps == s.apps && GainsAtMost(s.members, t.members, id, k)
            && (t.saved == s.saved || t.saved == t.members)
  {
    var (a, ip) := Allocate(s.alloc, k);
    if ip.Some? {
      var rec := Record(env, k, ip.value);
      AddGains(s.members, id, rec);
      RemoveGains(s.members, AddClient(s.members, id, rec).1, id, k);
    }
  }

  // ---- one moment ----

  lemma {:induction false} RequestClaims(env: Env, ms: seq<Member>, req: ProvisionReq, id: string, k: Key, now: Time)
    requires RequestStands(env, ms, req, id, now) && (req.clientKey == k || req.clientKey == "")
    ensures Claimed(env, ms, id, k)
  {
    var i :| LastWithId(ms, id, i) && env.decodeKey(ms[i].identityKey).Some?
             && env.verify(env.decodeKey(ms[i].identityKey).value, req.cmd.canon.value, req.cmd.signature);
    assert Asked(env, env.decodeKey(ms[i].identityKey).value, id, req, k);
    assert HolderClaims(env, ms[i], k);
  }

  lemma {:induction false} ProvisionSourced(env: Env, owner: string, s: State, e: R.Event)
    requires e.ProvisionArrives? && AllSourced(env, owner, s)
    ensures AllSourced(env, owner, R.Step(env, s, e))
  {
    R.ProvisionStep(env, s, e);
    var target := R.Target(env, s, e.provision, e.now);
    if target.Some? {
      var (id, k) := target.value;
      TargetClaims(env, s, e.provision, e.now);
      InstallGains(env, s, id, k, e.added);
      SourcedCarries(env, owner, s.apps, s.members, Install(env, s, id, k, e.added).0.members, id, k);
    }
  }

  lemma {:induction false} TargetClaims(env: Env, s: State, req: ProvisionReq, now: Time)
    requires R.Target(env, s, req, now).Some?
    ensures var (id, k) := R.Target(env, s, req, now).value; Claimed(env, s.members, id, k)
  {
    var (id, k) := R.Target(env, s, req, now).value;
    var e := R.N.Consume(s.nonces, req.NonceKey(), req.nonce, now).1.value;
    RequestIff(env, s.members, req, e, now);
    RequestClaims(env, s.members, req, id, k, now);
  }

  lemma {:induction false} EntryClaims(env: Env, owner: string, apps: seq<App>, ms: seq<Member>, dm: DsMember,
                                       m: Member)
    requires m in ms && Shows(env, owner, apps, dm, m)
    ensures ClientsClaimed(env, ms, m)
  {
    var key := env.decodeKey(dm.identityKey).value;
    forall k | HasKey(m, k)
      ensures Claimed(env, ms, m.id, k)
    {
      var j :| 0 <= j < |m.clients| && m.clients[j].key == k;
      var dc := Registering(dm.clients)[j];
      assert ClientRegistered(env, key, dm.id, dc, m.clients[j]);
      assert Registered(env, key, dm.id, dc.registration.value, k);
      assert HolderClaims(env, m, k);
    }
  }

  lemma {:induction false} EntryApps(env: Env, owner: string, apps: seq<App>, dm: DsMember, m: Member)
    requires Shows(env, owner, apps, dm, m)
    ensures AppsSigned(env, owner, apps, m)
  {
    if dm.permissions.Some? {
      var e := dm.permissions.value;
      assert PermissionsSaid(env, owner, e, m.id, e.payload.value.allowedAppIds);
    }
  }

  lemma {:induction false} EntryStatus(env: Env, owner: string, apps: seq<App>, dm: DsMember, m: Member)
    requires Shows(env, owner, apps, dm, m)
    ensures StatusSigned(env, owner, m)
  {
  }

  lemma {:induction false} EntriesSourced(env: Env, owner: string, apps: seq<App>, dms: seq<DsMember>, ms: seq<Member>)
    requires |dms| == |ms| && forall i :: 0 <= i < |ms| ==> Shows(env, owner, apps, dms[i], ms[i])
    ensures Sourced(env, owner, apps, ms)
  {
    forall i | 0 <= i < |ms|
      ensures StatusSigned(env, owner, ms[i]) && AppsSigned(env, owner, apps, ms[i]) && ClientsClaimed(env, ms, ms[i])
    {
      EntryStatus(env, owner, apps, dms[i], ms[i]);
      EntryApps(env, owner, apps, dms[i], ms[i]);
      EntryClaims(env, owner, apps, ms, dms[i], ms[i]);
    }
  }

  lemma {:induction false} SaidIsSigned(env: Env, owner: string, es: seq<Envelope<AppPayload>>, apps: seq<App>)
    requires AppsSaid(env, owner, es, apps)
    ensures forall i :: 0 <= i < |apps| ==> AppSigned(env, owner, apps[i])
  {
    forall i | 0 <= i < |apps|
      ensures AppSigned(env, owner, apps[i])
    {
      assert AppSaid(env, owner, es[i], apps[i]);
    }
  }

  lemma {:induction false} AppliedSourced(env: Env, owner: string, s: State, p: Push, now: Time, finished: Time,
                                          addOk: AddOk)
    requires Valid(s.alloc) && Canonical(s.alloc) && HandlePush(env, s, p, now, finished, addOk).1 == Applied
    requires s.pin.Some? && env.decodeKey(s.pin.value) == Some(owner)
    ensures AllSourced(env, owner, HandlePush(env, s, p, now, finished, addOk).0)
  {
    var t := HandlePush(env, s, p, now, finished, addOk).0;
    AppliedShows(env, s, p, now, finished, addOk);
    SaidIsSigned(env, owner, Present(p.apps), t.apps);
    EntriesSourced(env, owner, t.apps, p.members, t.members);
  }

  lemma {:induction false} PushSourced(env: Env, owner: string, s: State, p: Push, now: Time, finished: Time,
                                       addOk: AddOk)
    requires Valid(s.alloc) && Canonical(s.alloc) && AllSourced(env, owner, s)
    requires s.pin.Some? && env.decodeKey(s.pin.value) == Some(owner)
    ensures AllSourced(env, owner, HandlePush(env, s, p, now, finished, addOk).0)
  {
    if HandlePush(env, s, p, now, finished, addOk).1 == Applied {
      AppliedSourced(env, owner, s, p, now, finished, addOk);
    } else {
      UnappliedPush(env, s, p, now, finished, addOk);
    }
  }

  lemma {:induction false} StepSourced(env: Env, owner: string, s: State, e: R.Event)
    requires Trusted(env, owner, s) && R.AllocSound(s) && AllSourced(env, owner, s)
    ensures AllSourced(env, owner, R.Step(env, s, e))
  {
    match e
    case PushArrives(p, now, finished, addOk) => PushSourced(env, owner, s, p, now, finished, addOk);
    case ProvisionArrives(req, now, added) => ProvisionSourced(env, owner, s, e);
    case _ => QuietSourced(env, owner, s, e);
  }

  lemma {:induction false} QuietSourced(env: Env, owner: string, s: State, e: R.Event)
    requires !e.PushArrives? && !e.ProvisionArrives? && AllSourced(env, owner, s)
    ensures AllSourced(env, owner, R.Step(env, s, e))
  {
    var t := R.Step(env, s, e);
    assert t.members == s.members && t.saved == s.saved && t.apps == s.apps;
  }

  // ---- restarts ----

  lemma {:induction false} ReviveSourced(env: Env, owner: string, apps: seq<App>, ms: seq<Member>, b: Rebuild, i: nat,
                                         n: nat, addOk: AddOk)
    requires Sourced(env, owner, apps, ms) && i < |ms| && n <= |ms[i].clients|
    requires SamePeople(ms, b.members) && Sourced(env, owner, apps, b.members)
    ensures var r := ReviveClients(env, b, ms[i].id, ms[i].clients[..n], i, addOk);
            SamePeople(ms, r.members) && Sourced(env, owner, apps, r.members)
  {
    var cs := ms[i].clients[..n];
    if n > 0 {
      ReviveSourced(env, owner, apps, ms, b, i, n - 1, addOk);
      assert cs[..n - 1] == ms[i].clients[..n - 1];
      var r, c := ReviveClients(env, b, ms[i].id, cs[..n - 1], i, addOk), cs[n - 1];
      RevivedOne(env, owner, apps, ms, r, i, c, addOk(i, n - 1));
    }
  }

  lemma {:induction false} AddedBack(env: Env, owner: string, apps: seq<App>, ms: seq<Member>, ns: seq<Member>, i: nat,
                                     rec: Client)
    requires i < |ms| && ClientsClaimed(env, ms, ms[i]) && HasKey(ms[i], rec.key)
    requires SamePeople(ms, ns) && Sourced(env, owner, apps, ns)
    ensures var r := AddClient(ns, ms[i].id, rec).1; SamePeople(ms, r) && Sourced(env, owner, apps, r)
  {
    ClaimCarries(env, ms, ns, ms[i].id, rec.key);
    AddGains(ns, ms[i].id, rec);
    SourcedCarries(env, owner, apps, ns, AddClient(ns, ms[i].id, rec).1, ms[i].id, rec.key);
  }

  lemma {:induction false} RevivedOne(env: Env, owner: string, apps: seq<App>, ms: seq<Member>, b: Rebuild, i: nat,
                                      c: Client, addOk: bool)
    requires Sourced(env, owner, apps, ms) && i < |ms| && c in ms[i].clients
    requires SamePeople(ms, b.members) && Sourced(env, owner, apps, b.members)
    ensures var r := ReviveClient(env, b, ms[i].id, c, addOk);
            SamePeople(ms, r.members) && Sourced(env, owner, apps, r.members)
  {
    var ip := PickAddress(b.alloc, c).1;
    if c.key != "" && ip.Some? {
      AddedBack(env, owner, apps, ms, b.members, i, RevivedRecord(env, c, ip.value));
    }
  }

  lemma {:induction false} ReviveAllSourced(env: Env, owner: string, apps: seq<App>, ms: seq<Member>, b: Rebuild,
                                            n: nat, addOk: AddOk)
    requires Sourced(env, owner, apps, ms) && n <= |ms| && b.members == ms
    ensures var r := ReviveMembers(env, b, ms[..n], addOk);
            SamePeople(ms, r.members) && Sourced(env, owner, apps, r.members)
  {
    if n > 0 {
      ReviveAllSourced(env, owner, apps, ms, b, n - 1, addOk);
      ReviveLast(env, b, ms, n, addOk);
      var m := ms[n - 1];
      assert m.clients[..|m.clients|] == m.clients;
      ReviveSourced(env, owner, apps, ms, ReviveMembers(env, b, ms[..n - 1], addOk), n - 1, |m.clients|, addOk);
    }
  }

  lemma {:induction false} ReviveLast(env: Env, b: Rebuild, ms: seq<Member>, n: nat, addOk: AddOk)
    requires 0 < n <= |ms|
    ensures var r, m := ReviveMembers(env, b, ms[..n - 1], addOk), ms[n - 1];
            ReviveMembers(env, b, ms[..n], addOk)
            == if m.IsActive() then ReviveClients(env, r, m.id, m.clients, n - 1, addOk) else r
  {
    assert ms[..n][..n - 1] == ms[..n - 1];
  }

  lemma {:induction false} RestartSourced(env: Env, owner: string, s: State, b: Alloc, boot: Time, addOk: AddOk)
    requires Trusted(env, owner, s) && AllSourced(env, owner, s)
    ensures AllSourced(env, owner, Restart(env, s, b, boot, addOk))
  {
    var ms := s.saved;
    CertifiedSurvive(env, s.log, ms);
    ReviveAllSourced(env, owner, s.apps, ms, Rebuild(MarkMembers(b, ms), ms, map[], false), |ms|, addOk);
    assert ms[..|ms|] == ms;
  }

  // ---- whole lives ----

  lemma {:induction false} NextSourced(env: Env, owner: string, s: State, m: Moment)
    requires Trusted(env, owner, s) && R.AllocSound(s) && AllSourced(env, owner, s)
    ensures AllSourced(env, owner, Lives.Next(env, s, m))
  {
    match m
    case Happens(e) => StepSourced(env, owner, s, e);
    case Reboots(b, boot, addOk) => RestartSourced(env, owner, s, b, boot, addOk);
  }

  ghost function SourcedAfter(env: Env, owner: string, s: State): seq<Moment> -> bool {
    (ms: seq<Moment>) => AllSourced(env, owner, Life(env, s, ms))
  }

  lemma {:induction false} SourcedOn(env: Env, owner: string, s: State, ms: seq<Moment>, i: nat)
    requires Trusted(env, owner, s) && R.AllocSound(s) && Feasible(env, s, ms) && i < |ms|
    requires SourcedAfter(env, owner, s)(ms[..i])
    ensures SourcedAfter(env, owner, s)(ms[..i + 1])
  {
    LifeTrusted(env, owner, s, ms, i);
    LifeStep(env, s, ms, i);
    NextSourced(env, owner, Life(env, s, ms[..i]), ms[i]);
  }

  /** At every moment of a paired agent's life, whatever arrives and whatever files it restarts from: every
      app of the catalogue, every member's status and apps are what the pinned owner signed or what follows
      from an invite the owner signed, and every client was claimed under the identity key of a member of
      its member's id. */
  lemma {:induction false} LifeSourced(env: Env, owner: string, s: State, pin: string, ms: seq<Moment>)
    requires R.JustPaired(s, pin) && env.decodeKey(pin) == Some(owner) && Feasible(env, s, ms)
    ensures Throughout(ms, SourcedAfter(env, owner, s))
  {
    FreshSourced(env, owner, s, pin);
    R.PairedReady(env, owner, s, pin);
    forall i | 0 <= i < |ms| && SourcedAfter(env, owner, s)(ms[..i])
      ensures SourcedAfter(env, owner, s)(ms[..i + 1])
    {
      SourcedOn(env, owner, s, ms, i);
    }
    Persists(ms, SourcedAfter(env, owner, s));
  }

  lemma {:induction false} FreshSourced(env: Env, owner: string, s: State, pin: string)
    requires R.JustPaired(s, pin)
    ensures AllSourced(env, owner, s)
  {
    forall i | 0 <= i < |s.members|
      ensures StatusSigned(env, owner, s.members[i]) && AppsSigned(env, owner, s.apps, s.members[i])
              && ClientsClaimed(env, s.members, s.members[i])
    {
    }
  }
}
