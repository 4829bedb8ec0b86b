/** The agent's state and what one `device:state` push does to it: verify everything, give every client
    its address, swap the ACL, bring peers and grants in line. */
module DeviceState {
  import opened Base
  import opened Addresses
  import opened Allocator
  import opened Wire
  import opened Acl
  import opened Signing
  import opened Admission
  import T = Text
  import L = Liveness
  import N = Nonces

  /** `saved` is the member list in the ACL file; the file's other fields only change when it is written. */
  datatype State = State(
    members: seq<Member>, apps: seq<App>, pin: Option<string>, generation: int, appliedAt: Time,
    saved: seq<Member>, alloc: Alloc, peers: map<Key, Address>, grants: seq<PortGrant>,
    log: Log, live: L.Live, nonces: N.Pending)

  // ---- verifying the parts of a push ----

  /** verifyAuthorization with AttestedAuth(key): no freshness check. */
  predicate Authorized<P>(env: Env, key: string, e: Envelope<P>, intent: string, expected: string) {
    && intent == expected
    && e.signerId != "" && e.signature != "" && e.canon.Some?
    && env.verify(key, e.canon.value, e.signature)
  }

  predicate ValidApp(env: Env, a: App) {
    if a.IsPort() then 1 <= a.port <= 65535 && a.protocol in ["tcp", "udp", "http", "https"]
    else env.urlOk(a.internalUrl)
  }

  /** An app without an envelope is skipped; a bad one refuses the push. */
  function VerifyApp(env: Env, owner: string, da: Option<Envelope<AppPayload>>): Result<seq<App>> {
    if da.None? then Ok([])
    else if da.value.payload.None? then Rejected
    else
      var ap := da.value.payload.value;
      if Authorized(env, owner, da.value, ap.intent, "app:upserted-" + env.deviceId + "-" + ap.app.id)
          && ValidApp(env, ap.app)
      then Ok([ap.app]) else Rejected
  }

  function VerifyApps(env: Env, owner: string, das: seq<Option<Envelope<AppPayload>>>): Result<seq<App>> {
    if das == [] then Ok([])
    else
      var front :- VerifyApps(env, owner, das[..|das| - 1]);
      var last :- VerifyApp(env, owner, das[|das| - 1]);
      Ok(front + last)
  }

  function PickApps(apps: seq<App>, ids: seq<string>): seq<App> {
    if ids == [] then []
    else
      var a := LastAppById(apps, ids[|ids| - 1]);
      PickApps(apps, ids[..|ids| - 1]) + if a.Some? then [a.value] else []
  }

  /** What verification of a member looks at besides the member: the owner's key, the ACL before the
      push, the apps just verified, the time. */
  datatype Ctx = Ctx(env: Env, owner: string, known: seq<Member>, apps: seq<App>, now: Time)

  /** The admission part: the certificate the entry will carry and the apps it was invited to. An
      inbound certificate must verify; else a stored one is reused; else the invite is checked and a
      certificate minted, which adds to the log. */
  function Admit(ctx: Ctx, log: Log, dm: DsMember): (Log, Result<(Option<Certificate>, seq<string>)>) {
    if dm.IsAdmin() then (log, Ok((None, [])))
    else if dm.admittance.Some? then
      (log, Reuse(ctx, log, dm, dm.admittance.value))
    else
      var existing := Find(ctx.known, HasId, dm.id);
      if existing.Some? && existing.value.admittance.Some? then
        (log, Reuse(ctx, log, dm, existing.value.admittance.value))
      else if dm.join.None? then (log, Rejected)
      else
        var inv := VerifyJoin(ctx.env, dm.join.value, dm.identityKey, ctx.owner, ctx.now);
        if inv.Rejected? then (log, Rejected)
        else
          var cert := Mint(ctx.env, dm.id, dm.identityKey, dm.join.value.raw.value, inv.value.allowedAppIds, ctx.now);
          if cert.Rejected? then (log, Rejected)
          else (log + {CertBytes(cert.value)}, Ok((Some(cert.value), cert.value.initialApps)))
  }

  function Reuse(ctx: Ctx, log: Log, dm: DsMember, c: Certificate): Result<(Option<Certificate>, seq<string>)> {
    if VerifyCert(ctx.env, log, c, dm.id, dm.identityKey) then Ok((Some(c), c.initialApps)) else Rejected
  }

  /** A missing status envelope means active. */
  function VerifyStatus(ctx: Ctx, dm: DsMember): Result<string> {
    if dm.status.None? then Ok("active")
    else if dm.status.value.payload.None? then Rejected
    else
      var sp := dm.status.value.payload.value;
      if && sp.memberId == dm.id
         && (sp.status == "active" || sp.status == "suspended")
         && Authorized(ctx.env, ctx.owner, dm.status.value, sp.intent,
                       "member:status-" + ctx.env.deviceId + "-" + sp.memberId + "-" + sp.status + "-"
                         + T.Decimal(sp.ts))
      then Ok(sp.status) else Rejected
  }

  /** A permissions envelope decides; without one an admin gets every app and a member those of the invite. */
  function VerifyPermissions(ctx: Ctx, dm: DsMember, initialApps: seq<string>): Result<seq<App>> {
    if dm.permissions.None? then Ok(if dm.IsAdmin() then ctx.apps else PickApps(ctx.apps, initialApps))
    else if dm.permissions.value.payload.None? then Rejected
    else
      var pp := dm.permissions.value.payload.value;
      if && pp.memberId == dm.id
         && Authorized(ctx.env, ctx.owner, dm.permissions.value, pp.intent,
                       "member:permissions-" + ctx.env.deviceId + "-" + pp.memberId + "-" + T.Decimal(pp.ts))
      then Ok(PickApps(ctx.apps, pp.allowedAppIds)) else Rejected
  }

  type Leases = map<Key, Address>

  /** The client record, and the address a lease of ours restores; an invalid lease is ignored. */
  function VerifyClient(env: Env, log: Log, memberKey: string, id: string, dc: DsClient): Result<(seq<Client>,
                                                                                                  Leases)> {
    if dc.registration.None? then Ok(([], map[]))
    else if dc.registration.value.payload.None? then Rejected
    else
      var cp := dc.registration.value.payload.value;
      if && Authorized(env, memberKey, dc.registration.value, cp.intent,
                       "wg:client-register-" + env.deviceId + "-" + cp.memberId + "-" + dc.key + "-" + T.Decimal(cp.ts))
         && cp.memberId == id && cp.publicKey == dc.key
      then Ok(([Client(dc.key, NoAddress, NoAddress, dc.title, dc.platform, dc.endpointType)],
               if dc.lease.Some? && VerifyLease(env, log, dc.lease.value, dc.key) then map[dc.key := dc.lease.value.ip]
                   else map[]))
      else Rejected
  }

  function VerifyClients(env: Env, log: Log, memberKey: string, id: string, dcs: seq<DsClient>): Result<(seq<Client>,
                                                                                                         Leases)> {
    if dcs == [] then Ok(([], map[]))
    else
      var (cs, ls) :- VerifyClients(env, log, memberKey, id, dcs[..|dcs| - 1]);
      var (c, l) :- VerifyClient(env, log, memberKey, id, dcs[|dcs| - 1]);
      Ok((cs + c, ls + l))
  }

  /** The ACL entry for one pushed member, its leases, and the log, which keeps a minted certificate
      even when a later check of the same member fails. */
  function VerifyMember(ctx: Ctx, log: Log, dm: DsMember): (Log, Result<(Member, Leases)>) {
    var (log', adm) := Admit(ctx, log, dm);
    (log', FinishMember(ctx, log', dm, adm))
  }

  function FinishMember(ctx: Ctx, log: Log, dm: DsMember,
                        adm: Result<(Option<Certificate>, seq<string>)>): Result<(Member, Leases)> {
    var (cert, initialApps) :- adm;
    if ctx.env.decodeKey(dm.identityKey).None? then Rejected
    else
      var status :- VerifyStatus(ctx, dm);
      var apps :- VerifyPermissions(ctx, dm, initialApps);
      var (clients, leases) :- VerifyClients(ctx.env, log, ctx.env.decodeKey(dm.identityKey).value, dm.id, dm.clients);
      Ok((Member(dm.id, dm.userId, dm.name, dm.email, dm.role, dm.identityKey, None, cert, clients, apps, status),
          leases))
  }

  datatype Verified = Verified(ok: bool, members: seq<Member>, leases: Leases, log: Log)

  function VerifyMembers(ctx: Ctx, log: Log, dms: seq<DsMember>): Verified {
    if dms == [] then Verified(true, [], map[], log)
    else
      var v := VerifyMembers(ctx, log, dms[..|dms| - 1]);
      if !v.ok then v
      else
        var (log', r) := VerifyMember(ctx, v.log, dms[|dms| - 1]);
        if r.Rejected? then Verified(false, v.members, v.leases, log')
        else Verified(true, v.members + [r.value.0], v.leases + r.value.1, log')
  }

  /** Certificates to send upstream: of the members that were pushed without one. */
  function Announced(dms: seq<DsMember>, ms: seq<Member>): seq<Certificate>
    requires |ms| == |dms|
  {
    if dms == [] then []
    else
      var n := |dms| - 1;
      Announced(dms[..n], ms[..n]) + Announcement(dms[n], ms[n].admittance)
  }

  function Announcement(dm: DsMember, cert: Option<Certificate>): seq<Certificate> {
    if !dm.IsAdmin() && dm.admittance.None? && cert.Some? then [cert.value] else []
  }

  // ---- addresses ----

  datatype Assigned<+T> = Assigned(ok: bool, alloc: Alloc, done: seq<T>)

  /** An existing binding wins; an unknown key is restored from a lease if its address is free;
      otherwise the allocator picks. */
  function AssignAddress(a: Alloc, leases: Leases, k: Key): (Alloc, Option<Address>) {
    if k == "" then (a, Some(NoAddress))
    else if Lookup(a, k) != NoAddress then (a, Some(Lookup(a, k)))
    else if k in leases && leases[k] != NoAddress && TryAdopt(a, k, leases[k]).1 then
      (TryAdopt(a, k, leases[k]).0, Some(leases[k]))
    else Allocate(a, k)
  }

  function AssignClients(a: Alloc, leases: Leases, cs: seq<Client>): Assigned<Client> {
    if cs == [] then Assigned(true, a, [])
    else
      var r, c := AssignClients(a, leases, cs[..|cs| - 1]), cs[|cs| - 1];
      if !r.ok then r
      else
        var (b, ip) := AssignAddress(r.alloc, leases, c.key);
        if ip.None? then Assigned(false, b, r.done)
        else Assigned(true, b, r.done + [if c.key == "" then c else c.(ip4 := ip.value)])
  }

  function AssignMembers(a: Alloc, leases: Leases, ms: seq<Member>): Assigned<Member> {
    if ms == [] then Assigned(true, a, [])
    else
      var r, m := AssignMembers(a, leases, ms[..|ms| - 1]), ms[|ms| - 1];
      if !r.ok then r
      else
        var cs := AssignClients(r.alloc, leases, m.clients);
        if !cs.ok then Assigned(false, cs.alloc, r.done)
        else Assigned(true, cs.alloc, r.done + [m.(clients := cs.done)])
  }

  function DeriveClient(server6: Address, c: Client): Client {
    if c.ip4 == NoAddress then c else c.(ip6 := TunnelIPv6(server6, c.ip4))
  }

  function DeriveClients(server6: Address, cs: seq<Client>): (r: seq<Client>)
    ensures |r| == |cs| && forall j :: 0 <= j < |cs| ==> r[j] == DeriveClient(server6, cs[j])
  {
    seq(|cs|, j requires 0 <= j < |cs| => DeriveClient(server6, cs[j]))
  }

  function DeriveV6(server6: Address, ms: seq<Member>): (r: seq<Member>)
    ensures |r| == |ms|
    ensures forall i :: 0 <= i < |ms| ==> r[i] == ms[i].(clients := DeriveClients(server6, ms[i].clients))
  {
    seq(|ms|, i requires 0 <= i < |ms| => ms[i].(clients := DeriveClients(server6, ms[i].clients)))
  }

  // ---- peers ----

  type Peers = map<Key, Address>

  /** Does the AddPeer for client j of member i succeed? It can fail on a malformed key or in the kernel. */
  type AddOk = (nat, nat) -> bool

  function InstallClients(ps: Peers, cs: seq<Client>, i: nat, addOk: AddOk): Peers {
    if cs == [] then ps
    else
      var qs, c := InstallClients(ps, cs[..|cs| - 1], i, addOk), cs[|cs| - 1];
      if c.key != "" && c.ip4 != NoAddress && addOk(i, |cs| - 1) then qs[c.key := c.ip4] else qs
  }

  function InstallMembers(ps: Peers, ms: seq<Member>, addOk: AddOk): Peers {
    if ms == [] then ps
    else
      var qs, m := InstallMembers(ps, ms[..|ms| - 1], addOk), ms[|ms| - 1];
      if m.status == "suspended" then qs - KeysOf(m.clients) else InstallClients(qs, m.clients, |ms| - 1, addOk)
  }

  // ---- the push ----

  datatype Verdict = Applied | Ignored | Refused

  function Commit(s: State, ms: seq<Member>, apps: seq<App>, generation: int, now: Time, finished: Time,
                  addOk: AddOk): State {
    var removed := ClientKeys(s.members) - ClientKeys(ms);
    s.(members := ms, apps := apps,
       alloc := ReleaseAll(s.alloc, removed),
       peers := InstallMembers(s.peers - removed, ms, addOk),
       grants := Grants(ms),
       generation := generation, appliedAt := now, saved := ms,
       live := L.Mark(s.live, finished, true))
  }

  /** HandleDeviceState. `now` is when it started, `finished` when it marked liveness. */
  function HandlePush(env: Env, s: State, p: Push, now: Time, finished: Time, addOk: AddOk): (State, Verdict) {
    if p.deviceId != "" && p.deviceId != env.deviceId then (s, Refused)
    else if p.generation < s.generation then (s, Ignored)
    else if s.pin.None? || env.decodeKey(s.pin.value).None? then (s, Refused)
    else
      var owner := env.decodeKey(s.pin.value).value;
      var apps := VerifyApps(env, owner, p.apps);
      if apps.Rejected? then (s, Refused)
      else
        var v := VerifyMembers(Ctx(env, owner, s.members, apps.value, now), s.log, p.members);
        var s1 := s.(log := v.log);
        if !v.ok then (s1, Refused)
        else
          var a := AssignMembers(s.alloc, v.leases, v.members);
          var s2 := s1.(alloc := a.alloc);
          if !a.ok then (s2, Refused)
          else
            var ms := DeriveV6(env.server6, a.done);
            if !PinOk(s.pin, ms) then (s2, Refused)
            else (Commit(s2, ms, apps.value, p.generation, now, finished, addOk), Applied)
  }
}
