/** On what grounds a whole push is applied, and what the agent then holds. */
module PushGrounds {
  import opened Base
  import opened Addresses
  import opened Allocator
  import opened Wire
  import opened Acl
  import opened Signing
  import opened DeviceState
  import opened Addressing
  import opened Grounds

  // ---- one member ----

  /** The entry m for pushed member dm, with its leases: admitted; status, apps and clients each on its
      grounds; everything else copied. */
  ghost predicate EntryFor(ctx: Ctx, log: Log, dm: DsMember, m: Member, ls: Leases, log': Log) {
    && AdmittedWith(ctx, log, dm, m.admittance, log')
    && ctx.env.decodeKey(dm.identityKey).Some?
    && (match dm.status
        case None => m.status == "active"
        case Some(e) => StatusSaid(ctx.env, ctx.owner, e, dm.id, m.status))
    && AppsGranted(ctx.env, ctx.owner, ctx.apps, dm, Initial(m.admittance), m.apps)
    && RecordsFor(ctx.env, ctx.env.decodeKey(dm.identityKey).value, dm.id, Registering(dm.clients), m.clients)
    && LeasesOf(ctx.env, log', Registering(dm.clients), ls)
    && m.id == dm.id && m.userId == dm.userId && m.name == dm.name && m.email == dm.email && m.role == dm.role
    && m.identityKey == dm.identityKey && m.join == None
  }

  lemma {:induction false} FinishIff(ctx: Ctx, log: Log, dm: DsMember, cert: Option<Certificate>,
                                     initialApps: seq<string>, m: Member, ls: Leases)
    ensures FinishMember(ctx, log, dm, Ok((cert, initialApps))) == Ok((m, ls))
            <==> && ctx.env.decodeKey(dm.identityKey).Some?
                 && VerifyStatus(ctx, dm) == Ok(m.status)
                 && VerifyPermissions(ctx, dm, initialApps) == Ok(m.apps)
                 && VerifyClients(ctx.env, log, ctx.env.decodeKey(dm.identityKey).value, dm.id, dm.clients)
                    == Ok((m.clients, ls))
                 && m == Member(dm.id, dm.userId, dm.name, dm.email, dm.role, dm.identityKey, None, cert, m.clients,
                                m.apps, m.status)
  {
  }

  lemma {:induction false} EntryIff(ctx: Ctx, log: Log, dm: DsMember, m: Member, ls: Leases, log': Log)
    ensures VerifyMember(ctx, log, dm) == (log', Ok((m, ls))) <==> EntryFor(ctx, log, dm, m, ls, log')
  {
    AdmitIff(ctx, log, dm, m.admittance, Initial(m.admittance), log');
    FinishIff(ctx, log', dm, m.admittance, Initial(m.admittance), m, ls);
    StatusIff(ctx, dm, m.status);
    PermissionsIff(ctx, dm, Initial(m.admittance), m.apps);
    if ctx.env.decodeKey(dm.identityKey).Some? {
      ClientsIff(ctx.env, log', ctx.env.decodeKey(dm.identityKey).value, dm.id, dm.clients, m.clients, ls);
    }
    VerifiedAdmitted(ctx, log, dm, m, ls, log');
  }

  lemma {:induction false} VerifiedAdmitted(ctx: Ctx, log: Log, dm: DsMember, m: Member, ls: Leases, log': Log)
    ensures VerifyMember(ctx, log, dm) == (log', Ok((m, ls)))
            <==> && Admit(ctx, log, dm) == (log', Ok((m.admittance, Initial(m.admittance))))
                 && FinishMember(ctx, log', dm, Ok((m.admittance, Initial(m.admittance)))) == Ok((m, ls))
  {
    var (log'', adm) := Admit(ctx, log, dm);
    if adm.Ok? {
      var (cert, initialApps) := adm.value;
      AdmitIff(ctx, log, dm, cert, initialApps, log'');
      FinishIff(ctx, log'', dm, cert, initialApps, m, ls);
    }
  }

  // ---- all members ----

  /** Entries for all pushed members, each admitted in the log its predecessor left. */
  ghost predicate EntriesFor(ctx: Ctx, dms: seq<DsMember>, ms: seq<Member>, lss: seq<Leases>, logs: seq<Log>) {
    && |ms| == |dms| && |lss| == |dms| && |logs| == |dms| + 1
    && forall i :: 0 <= i < |dms| ==> EntryFor(ctx, logs[i], dms[i], ms[i], lss[i], logs[i + 1])
  }

  /** Of two leases for a key, the later member's counts. */
  function AllLeases(lss: seq<Leases>): Leases {
    if lss == [] then map[] else AllLeases(lss[..|lss| - 1]) + lss[|lss| - 1]
  }

  lemma {:induction false} EntriesFound(ctx: Ctx, log: Log, dms: seq<DsMember>)
    returns (lss: seq<Leases>, logs: seq<Log>)
    requires VerifyMembers(ctx, log, dms).ok
    ensures var v := VerifyMembers(ctx, log, dms);
            && EntriesFor(ctx, dms, v.members, lss, logs) && logs[0] == log && logs[|dms|] == v.log
            && v.leases == AllLeases(lss)
  {
    if dms == [] {
      lss, logs := [], [log];
    } else {
      var n := |dms| - 1;
      var v := VerifyMembers(ctx, log, dms[..n]);
      var lss0, logs0 := EntriesFound(ctx, log, dms[..n]);
      var (log', r) := VerifyMember(ctx, v.log, dms[n]);
      EntryIff(ctx, v.log, dms[n], r.value.0, r.value.1, log');
      lss, logs := lss0 + [r.value.1], logs0 + [log'];
      EntriesSnoc(ctx, dms, v.members, lss0, logs0, r.value.0, r.value.1, log');
    }
  }

  lemma {:induction false} EntriesSnoc(ctx: Ctx, dms: seq<DsMember>, ms: seq<Member>, lss: seq<Leases>, logs: seq<Log>,
                                       m: Member, ls: Leases, log': Log)
    requires dms != []
    ensures var n := |dms| - 1;
            EntriesFor(ctx, dms, ms + [m], lss + [ls], logs + [log'])
            <==> EntriesFor(ctx, dms[..n], ms, lss, logs) && EntryFor(ctx, logs[n], dms[n], m, ls, log')
    ensures AllLeases(lss + [ls]) == AllLeases(lss) + ls
  {
    var n := |dms| - 1;
    var ms', lss', logs' := ms + [m], lss + [ls], logs + [log'];
    assert lss'[..|lss|] == lss;
    if EntriesFor(ctx, dms, ms', lss', logs') {
      forall i | 0 <= i < n
        ensures EntryFor(ctx, logs[i], dms[..n][i], ms[i], lss[i], logs[i + 1])
      {
        assert EntryFor(ctx, logs'[i], dms[i], ms'[i], lss'[i], logs'[i + 1]);
      }
      assert EntryFor(ctx, logs'[n], dms[n], ms'[n], lss'[n], logs'[n + 1]);
    }
    if EntriesFor(ctx, dms[..n], ms, lss, logs) && EntryFor(ctx, logs[n], dms[n], m, ls, log') {
      forall i | 0 <= i < |dms|
        ensures EntryFor(ctx, logs'[i], dms[i], ms'[i], lss'[i], logs'[i + 1])
      {
        if i < n {
          assert EntryFor(ctx, logs[i], dms[..n][i], ms[i], lss[i], logs[i + 1]);
        }
      }
    }
  }

  lemma {:induction false} VerifySnoc(ctx: Ctx, log: Log, dms: seq<DsMember>, v: Verified, m: Member, ls: Leases,
                                      log': Log)
    requires dms != [] && v == VerifyMembers(ctx, log, dms[..|dms| - 1]) && v.ok
    requires VerifyMember(ctx, v.log, dms[|dms| - 1]) == (log', Ok((m, ls)))
    ensures VerifyMembers(ctx, log, dms) == Verified(true, v.members + [m], v.leases + ls, log')
  {
  }

  lemma {:induction false} EntriesVerify(ctx: Ctx, dms: seq<DsMember>, ms: seq<Member>, lss: seq<Leases>,
                                         logs: seq<Log>)
    requires EntriesFor(ctx, dms, ms, lss, logs)
    ensures VerifyMembers(ctx, logs[0], dms) == Verified(true, ms, AllLeases(lss), logs[|dms|])
  {
    if dms != [] {
      var n := |dms| - 1;
      assert ms == ms[..n] + [ms[n]] && lss == lss[..n] + [lss[n]] && logs == logs[..n + 1] + [logs[n + 1]];
      EntriesSnoc(ctx, dms, ms[..n], lss[..n], logs[..n + 1], ms[n], lss[n], logs[n + 1]);
      EntriesVerify(ctx, dms[..n], ms[..n], lss[..n], logs[..n + 1]);
      EntryIff(ctx, logs[n], dms[n], ms[n], lss[n], logs[n + 1]);
      VerifySnoc(ctx, logs[0], dms, VerifyMembers(ctx, logs[0], dms[..n]), ms[n], lss[n], logs[n + 1]);
    }
  }

  // ---- the push ----

  /** Every admin has the pinned key. */
  predicate AdminsPinned(pin: string, ms: seq<Member>) {
    forall i :: 0 <= i < |ms| && (ms[i].role == "admin" || ms[i].role == "owner") ==>
      ms[i].identityKey == pin && pin != ""
  }

  /** The push is for this device and not older than what was applied; the pinned owner's key signs the
      catalogue; every member has its entry; there are addresses for all; the admins have the pinned key. */
  ghost predicate Grounded(env: Env, s: State, p: Push, now: Time, owner: string, apps: seq<App>, ms: seq<Member>,
                           lss: seq<Leases>, logs: seq<Log>) {
    && (p.deviceId == "" || p.deviceId == env.deviceId) && p.generation >= s.generation
    && s.pin.Some? && env.decodeKey(s.pin.value) == Some(owner)
    && AppsSaid(env, owner, Present(p.apps), apps)
    && EntriesFor(Ctx(env, owner, s.members, apps, now), p.members, ms, lss, logs) && logs[0] == s.log
    && AssignMembers(s.alloc, AllLeases(lss), ms).ok
    && AdminsPinned(s.pin.value, ms)
  }

  lemma {:induction false} PinnedIff(pin: Option<string>, a: Alloc, server6: Address, ms: seq<Member>, ns: seq<Member>)
    requires pin.Some? && SitedMembers(a, ms, ns)
    ensures PinOk(pin, DeriveV6(server6, ns)) <==> AdminsPinned(pin.value, ms)
  {
    var ds := DeriveV6(server6, ns);
    forall i | 0 <= i < |ms|
      ensures ds[i].role == ms[i].role && ds[i].identityKey == ms[i].identityKey
    {
      assert SitedMember(a, ms[i], ns[i]);
    }
  }

  lemma {:induction false} AppliedIsGrounded(env: Env, s: State, p: Push, now: Time, finished: Time, addOk: AddOk)
    returns (owner: string, apps: seq<App>, ms: seq<Member>, lss: seq<Leases>, logs: seq<Log>)
    requires Valid(s.alloc) && Canonical(s.alloc) && HandlePush(env, s, p, now, finished, addOk).1 == Applied
    ensures Grounded(env, s, p, now, owner, apps, ms, lss, logs)
  {
    var v, a;
    owner, apps, v, a := AppliedMeans(env, s, p, now, finished, addOk);
    AppsIff(env, owner, p.apps, apps);
    lss, logs := EntriesFound(Ctx(env, owner, s.members, apps, now), s.log, p.members);
    ms := v.members;
    AssignMembersOk(s.alloc, v.leases, v.members);
    PinnedIff(s.pin, a.alloc, env.server6, v.members, a.done);
  }

  /** What is applied, given the grounds: the catalogue, the entries at the addresses the allocator gives
      them, and the log. */
  lemma {:induction false} GroundedIsApplied(env: Env, s: State, p: Push, now: Time, finished: Time, addOk: AddOk,
                                             owner: string, apps: seq<App>, ms: seq<Member>, lss: seq<Leases>,
                                             logs: seq<Log>)
    requires Valid(s.alloc) && Canonical(s.alloc) && Grounded(env, s, p, now, owner, apps, ms, lss, logs)
    ensures HandlePush(env, s, p, now, finished, addOk).1 == Applied
    ensures var t := HandlePush(env, s, p, now, finished, addOk).0;
            t.apps == apps && t.log == logs[|p.members|] && SameButAddresses(ms, t.members) && t.saved == t.members
  {
    var ctx := Ctx(env, owner, s.members, apps, now);
    AppsIff(env, owner, p.apps, apps);
    EntriesVerify(ctx, p.members, ms, lss, logs);
    var a := AssignMembers(s.alloc, AllLeases(lss), ms);
    AssignMembersOk(s.alloc, AllLeases(lss), ms);
    PinnedIff(s.pin, a.alloc, env.server6, ms, a.done);
    SitedButAddresses(a.alloc, env.server6, ms, a.done);
  }

  /** The same entries, except for what addresses their clients have. */
  ghost predicate SameButAddresses(ms: seq<Member>, ns: seq<Member>) {
    |ms| == |ns| && forall i :: 0 <= i < |ms| ==> SameEntry(ms[i], ns[i])
  }

  ghost predicate SameEntry(m: Member, n: Member) {
    n == m.(clients := n.clients) && SameClients(m.clients, n.clients)
  }

  ghost predicate SameClients(cs: seq<Client>, ds: seq<Client>) {
    |cs| == |ds| && forall j :: 0 <= j < |cs| ==> ds[j] == cs[j].(ip4 := ds[j].ip4, ip6 := ds[j].ip6)
  }

  lemma {:induction false} SitedButAddresses(a: Alloc, server6: Address, ms: seq<Member>, ns: seq<Member>)
    requires SitedMembers(a, ms, ns)
    ensures SameButAddresses(ms, DeriveV6(server6, ns))
  {
    var ds := DeriveV6(server6, ns);
    forall i | 0 <= i < |ms|
      ensures SameEntry(ms[i], ds[i])
    {
      assert SitedMember(a, ms[i], ns[i]);
      forall j | 0 <= j < |ms[i].clients|
        ensures ds[i].clients[j] == ms[i].clients[j].(ip4 := ds[i].clients[j].ip4, ip6 := ds[i].clients[j].ip6)
      {
        assert Sited(a, ms[i].clients[j], ns[i].clients[j]);
      }
    }
  }

  /** A push is applied if and only if there are grounds for all of it. */
  lemma {:induction false} AppliedIff(env: Env, s: State, p: Push, now: Time, finished: Time, addOk: AddOk)
    requires Valid(s.alloc) && Canonical(s.alloc)
    ensures HandlePush(env, s, p, now, finished, addOk).1 == Applied
            <==> exists owner, apps, ms, lss, logs :: Grounded(env, s, p, now, owner, apps, ms, lss, logs)
  {
    if HandlePush(env, s, p, now, finished, addOk).1 == Applied {
      var owner, apps, ms, lss, logs := AppliedIsGrounded(env, s, p, now, finished, addOk);
    }
    if owner, apps, ms, lss, logs :| Grounded(env, s, p, now, owner, apps, ms, lss, logs) {
      GroundedIsApplied(env, s, p, now, finished, addOk, owner, apps, ms, lss, logs);
    }
  }

  /** The clients of an entry: those its member registered under its own identity key, in order, each as it
      was described. */
  ghost predicate ClientsRegistered(env: Env, key: string, id: string, rs: seq<DsClient>, cs: seq<Client>) {
    |cs| == |rs| && forall j :: 0 <= j < |cs| ==> ClientRegistered(env, key, id, rs[j], cs[j])
  }

  predicate ClientRegistered(env: Env, key: string, id: string, dc: DsClient, c: Client) {
    && dc.registration.Some? && Registered(env, key, id, dc.registration.value, dc.key)
    && c.key == dc.key && c.title == dc.title && c.platform == dc.platform && c.endpointType == dc.endpointType
  }

  /** m is the entry of pushed member dm, with the status, apps and clients that were signed for it. */
  ghost predicate Shows(env: Env, owner: string, apps: seq<App>, dm: DsMember, m: Member) {
    && m.id == dm.id && m.userId == dm.userId && m.name == dm.name && m.email == dm.email && m.role == dm.role
    && m.identityKey == dm.identityKey && (m.admittance.Some? || m.role == "admin" || m.role == "owner")
    && (match dm.status
        case None => m.status == "active"
        case Some(e) => StatusSaid(env, owner, e, dm.id, m.status))
    && AppsGranted(env, owner, apps, dm, Initial(m.admittance), m.apps)
    && env.decodeKey(dm.identityKey).Some?
    && ClientsRegistered(env, env.decodeKey(dm.identityKey).value, dm.id, Registering(dm.clients), m.clients)
  }

  /** So after an applied push: the catalogue is what the owner signed, and of each member the status, the
      apps and the clients are what was signed for it, by the owner and by the member. */
  lemma {:induction false} AppliedShows(env: Env, s: State, p: Push, now: Time, finished: Time, addOk: AddOk)
    requires Valid(s.alloc) && Canonical(s.alloc) && HandlePush(env, s, p, now, finished, addOk).1 == Applied
    ensures s.pin.Some? && env.decodeKey(s.pin.value).Some?
    ensures var owner, t := env.decodeKey(s.pin.value).value, HandlePush(env, s, p, now, finished, addOk).0;
            && AppsSaid(env, owner, Present(p.apps), t.apps)
            && |t.members| == |p.members| && t.saved == t.members
            && forall i :: 0 <= i < |t.members| ==> Shows(env, owner, t.apps, p.members[i], t.members[i])
  {
    var owner, apps, ms, lss, logs := AppliedIsGrounded(env, s, p, now, finished, addOk);
    GroundedIsApplied(env, s, p, now, finished, addOk, owner, apps, ms, lss, logs);
    AllShow(Ctx(env, owner, s.members, apps, now), p.members, ms, lss, logs,
            HandlePush(env, s, p, now, finished, addOk).0.members);
  }

  lemma {:induction false} AllShow(ctx: Ctx, dms: seq<DsMember>, ms: seq<Member>, lss: seq<Leases>, logs: seq<Log>,
                                   ns: seq<Member>)
    requires EntriesFor(ctx, dms, ms, lss, logs) && SameButAddresses(ms, ns)
    ensures forall i :: 0 <= i < |ns| ==> Shows(ctx.env, ctx.owner, ctx.apps, dms[i], ns[i])
  {
    forall i | 0 <= i < |ns|
      ensures Shows(ctx.env, ctx.owner, ctx.apps, dms[i], ns[i])
    {
      EntryStands(ctx, logs[i], dms[i], ms[i], lss[i], logs[i + 1], ns[i]);
    }
  }

  /** Giving a member's clients their addresses leaves its grounds. */
  lemma {:induction false} EntryStands(ctx: Ctx, log: Log, dm: DsMember, m: Member, ls: Leases, log': Log, n: Member)
    requires EntryFor(ctx, log, dm, m, ls, log') && SameEntry(m, n)
    ensures Shows(ctx.env, ctx.owner, ctx.apps, dm, n)
  {
    var key, rs := ctx.env.decodeKey(dm.identityKey).value, Registering(dm.clients);
    forall j | 0 <= j < |n.clients|
      ensures ClientRegistered(ctx.env, key, dm.id, rs[j], n.clients[j])
    {
      assert RecordFor(ctx.env, key, dm.id, rs[j], m.clients[j]);
    }
  }
}
