/** On what grounds a pushed item is accepted: whose signature over which bytes, with which intent, says what. */
module Grounds {
  import opened Base
  import opened Addresses
  import opened Allocator
  import opened Wire
  import opened Acl
  import opened Signing
  import opened Admission
  import opened DeviceState
  import T = Text

  /** The envelope has all its parts, and its signature over the canonical bytes verifies under this key. */
  predicate SignedBy<P>(env: Env, key: string, e: Envelope<P>) {
    && e.payload.Some? && e.canon.Some? && e.signerId != "" && e.signature != ""
    && env.verify(key, e.canon.value, e.signature)
  }

  /** The items that are there, in order. */
  function Present<T>(xs: seq<Option<T>>): seq<T> {
    if xs == [] then []
    else Present(xs[..|xs| - 1]) + match xs[|xs| - 1] case None => [] case Some(x) => [x]
  }

  // ---- the catalogue ----

  /** The owner has signed this app for this device, and it is a port or an address one can proxy to. */
  predicate AppSaid(env: Env, owner: string, e: Envelope<AppPayload>, a: App) {
    && SignedBy(env, owner, e) && e.payload.value.app == a
    && e.payload.value.intent == "app:upserted-" + env.deviceId + "-" + a.id
    && if a.kind == "port"
       then 1 <= a.port <= 65535
            && (a.protocol == "tcp" || a.protocol == "udp" || a.protocol == "http" || a.protocol == "https")
       else env.urlOk(a.internalUrl)
  }

  predicate AppsSaid(env: Env, owner: string, es: seq<Envelope<AppPayload>>, apps: seq<App>) {
    |es| == |apps| && forall i :: 0 <= i < |apps| ==> AppSaid(env, owner, es[i], apps[i])
  }

  /** The catalogue of a push: the signed apps of the envelopes that are there, in order. */
  lemma {:induction false} AppsIff(env: Env, owner: string, das: seq<Option<Envelope<AppPayload>>>, apps: seq<App>)
    ensures VerifyApps(env, owner, das) == Ok(apps) <==> AppsSaid(env, owner, Present(das), apps)
  {
    if das != [] {
      var n := |das| - 1;
      var es := Present(das[..n]);
      if das[n].None? {
        AppsIff(env, owner, das[..n], apps);
        if VerifyApps(env, owner, das[..n]).Ok? {
          var front := VerifyApps(env, owner, das[..n]).value;
          assert front + [] == front;
        }
      } else {
        if VerifyApps(env, owner, das) == Ok(apps) {
          AppsIff(env, owner, das[..n], VerifyApps(env, owner, das[..n]).value);
        }
        if AppsSaid(env, owner, Present(das), apps) {
          var front := apps[..|apps| - 1];
          assert AppsSaid(env, owner, es, front) by {
            assert Present(das)[..|front|] == es;
          }
          AppsIff(env, owner, das[..n], front);
          assert AppSaid(env, owner, Present(das)[|front|], apps[|front|]);
          assert apps == front + [apps[|front|]];
        }
      }
    }
  }

  // ---- a member's status ----

  predicate StatusSaid(env: Env, owner: string, e: Envelope<StatusPayload>, id: string, status: string) {
    && SignedBy(env, owner, e) && e.payload.value.memberId == id && e.payload.value.status == status
    && (status == "active" || status == "suspended")
    && e.payload.value.intent
       == "member:status-" + env.deviceId + "-" + id + "-" + status + "-" + T.Decimal(e.payload.value.ts)
  }

  lemma {:induction false} StatusIff(ctx: Ctx, dm: DsMember, status: string)
    ensures VerifyStatus(ctx, dm) == Ok(status)
            <==> match dm.status
                 case None => status == "active"
                 case Some(e) => StatusSaid(ctx.env, ctx.owner, e, dm.id, status)
  {
  }

  // ---- a member's apps ----

  predicate NoneNamed(apps: seq<App>, id: string) {
    forall i :: 0 <= i < |apps| ==> apps[i].id != id
  }

  /** What an id names in the catalogue: the last app that has it. */
  ghost predicate Named(apps: seq<App>, id: string, a: Option<App>) {
    match a
    case None => NoneNamed(apps, id)
    case Some(x) => exists i :: LastNamed(apps, id, i) && apps[i] == x
  }

  predicate LastNamed(apps: seq<App>, id: string, i: int) {
    0 <= i < |apps| && apps[i].id == id && forall j :: i < j < |apps| ==> apps[j].id != id
  }

  ghost predicate AllNamed(apps: seq<App>, ids: seq<string>, named: seq<Option<App>>) {
    |named| == |ids| && forall i :: 0 <= i < |ids| ==> Named(apps, ids[i], named[i])
  }

  /** r is what the ids name in the catalogue, in the order of the ids, leaving out those that name nothing. */
  ghost predicate Selected(apps: seq<App>, ids: seq<string>, r: seq<App>) {
    exists named: seq<Option<App>> :: AllNamed(apps, ids, named) && r == Present(named)
  }

  lemma {:induction false} LastIndex(apps: seq<App>, id: string) returns (i: nat)
    requires LastAppById(apps, id).Some?
    ensures LastNamed(apps, id, i) && apps[i] == LastAppById(apps, id).value
  {
    if apps[|apps| - 1].id == id {
      i := |apps| - 1;
    } else {
      i := LastIndex(apps[..|apps| - 1], id);
    }
  }

  lemma {:induction false} LastIsNamed(apps: seq<App>, id: string, a: Option<App>)
    ensures LastAppById(apps, id) == a <==> Named(apps, id, a)
  {
    if LastAppById(apps, id).Some? {
      var i := LastIndex(apps, id);
    }
  }

  lemma {:induction false} PickIff(apps: seq<App>, ids: seq<string>, r: seq<App>)
    ensures PickApps(apps, ids) == r <==> Selected(apps, ids, r)
  {
    var named := seq(|ids|, i requires 0 <= i < |ids| => LastAppById(apps, ids[i]));
    forall i | 0 <= i < |ids|
      ensures Named(apps, ids[i], named[i])
    {
      LastIsNamed(apps, ids[i], named[i]);
    }
    PickPresent(apps, ids, named);
    assert AllNamed(apps, ids, named) && PickApps(apps, ids) == Present(named);
    if Selected(apps, ids, r) {
      var other: seq<Option<App>> :| AllNamed(apps, ids, other) && r == Present(other);
      PickPresent(apps, ids, other);
    }
  }

  lemma {:induction false} PickPresent(apps: seq<App>, ids: seq<string>, named: seq<Option<App>>)
    requires AllNamed(apps, ids, named)
    ensures PickApps(apps, ids) == Present(named)
  {
    if ids != [] {
      var n := |ids| - 1;
      PickPresent(apps, ids[..n], named[..n]);
      LastIsNamed(apps, ids[n], named[n]);
    }
  }

  ghost predicate PermissionsSaid(env: Env, owner: string, e: Envelope<PermissionsPayload>, id: string,
                                  ids: seq<string>) {
    && SignedBy(env, owner, e) && e.payload.value.memberId == id && e.payload.value.allowedAppIds == ids
    && e.payload.value.intent == "member:permissions-" + env.deviceId + "-" + id + "-" + T.Decimal(e.payload.value.ts)
  }

  /** The apps of a pushed member: what its permissions envelope lists; without one the whole catalogue for
      an admin, and for anybody else what its invite listed. */
  ghost predicate AppsGranted(env: Env, owner: string, apps: seq<App>, dm: DsMember, initialApps: seq<string>,
                              r: seq<App>) {
    match dm.permissions
    case None => if dm.role == "admin" || dm.role == "owner" then r == apps else Selected(apps, initialApps, r)
    case Some(e) =>
      && e.payload.Some? && PermissionsSaid(env, owner, e, dm.id, e.payload.value.allowedAppIds)
      && Selected(apps, e.payload.value.allowedAppIds, r)
  }

  lemma {:induction false} PermissionsIff(ctx: Ctx, dm: DsMember, initialApps: seq<string>, r: seq<App>)
    ensures VerifyPermissions(ctx, dm, initialApps) == Ok(r)
            <==> AppsGranted(ctx.env, ctx.owner, ctx.apps, dm, initialApps, r)
  {
    match dm.permissions
    case None => PickIff(ctx.apps, initialApps, r);
    case Some(e) =>
      if e.payload.Some? {
        PickIff(ctx.apps, e.payload.value.allowedAppIds, r);
      }
  }

  // ---- a member's clients ----

  /** Somebody holding this key has signed that this client key is its own, as this member of this device. */
  predicate Registered(env: Env, key: string, id: string, e: Envelope<RegisterPayload>, k: Key) {
    && SignedBy(env, key, e) && e.payload.value.memberId == id && e.payload.value.publicKey == k
    && e.payload.value.intent
       == "wg:client-register-" + env.deviceId + "-" + id + "-" + k + "-" + T.Decimal(e.payload.value.ts)
  }

  /** The pushed clients that come with a registration. */
  function Registering(dcs: seq<DsClient>): (r: seq<DsClient>)
    ensures forall i :: 0 <= i < |r| ==> r[i].registration.Some?
  {
    if dcs == [] then []
    else
      var dc := dcs[|dcs| - 1];
      Registering(dcs[..|dcs| - 1]) + if dc.registration.Some? then [dc] else []
  }

  /** c is the record for pushed client dc, which its member registered. */
  predicate RecordFor(env: Env, key: string, id: string, dc: DsClient, c: Client) {
    && dc.registration.Some? && Registered(env, key, id, dc.registration.value, dc.key)
    && c == Client(dc.key, NoAddress, NoAddress, dc.title, dc.platform, dc.endpointType)
  }

  predicate RecordsFor(env: Env, key: string, id: string, rs: seq<DsClient>, cs: seq<Client>) {
    |cs| == |rs| && forall j :: 0 <= j < |cs| ==> RecordFor(env, key, id, rs[j], cs[j])
  }

  /** The client comes with a lease of its address that this agent signed for its key. */
  predicate Leased(env: Env, log: Log, dc: DsClient) {
    dc.lease.Some? &&
    var l := dc.lease.value;
    && l.deviceId == env.deviceId && l.key == dc.key && l.ip != NoAddress
    && LeaseBytes(env, l) in log && l.signature == Sign(LeaseBytes(env, l))
  }

  /** The last of the clients with this key that come with such a lease. */
  predicate LeaseDecides(env: Env, log: Log, rs: seq<DsClient>, k: Key, i: int) {
    && 0 <= i < |rs| && rs[i].key == k && Leased(env, log, rs[i])
    && forall j :: i < j < |rs| && rs[j].key == k ==> !Leased(env, log, rs[j])
  }

  /** ls gives each key the address of the lease that decides, and no other key one. */
  ghost predicate LeasesOf(env: Env, log: Log, rs: seq<DsClient>, ls: Leases) {
    && (forall k :: k in ls ==> exists i :: LeaseDecides(env, log, rs, k, i) && rs[i].lease.value.ip == ls[k])
    && (forall k, i :: LeaseDecides(env, log, rs, k, i) ==> k in ls)
  }

  lemma {:induction false} OneRecord(env: Env, log: Log, key: string, id: string, dc: DsClient, c: Client)
    requires dc.registration.Some?
    ensures var r := VerifyClient(env, log, key, id, dc);
            && (r.Ok? && r.value.0 == [c] <==> RecordFor(env, key, id, dc, c))
            && (r.Ok? ==> |r.value.0| == 1
                          && r.value.1 == if Leased(env, log, dc) then map[dc.key := dc.lease.value.ip] else map[])
  {
  }

  lemma {:induction false} ClientsStep(env: Env, log: Log, key: string, id: string, dcs: seq<DsClient>)
    requires dcs != []
    ensures var n := |dcs| - 1;
            var r, q := VerifyClients(env, log, key, id, dcs), VerifyClients(env, log, key, id, dcs[..n]);
            if dcs[n].registration.None? then r.Ok? == q.Ok? && (r.Ok? ==> r.value.0 == q.value.0)
            else
              var c := VerifyClient(env, log, key, id, dcs[n]);
              r.Ok? == (q.Ok? && c.Ok?) && (r.Ok? ==> r.value.0 == q.value.0 + c.value.0)
  {
    var q := VerifyClients(env, log, key, id, dcs[..|dcs| - 1]);
    if q.Ok? {
      assert q.value.0 + [] == q.value.0;
    }
  }

  lemma {:induction false} RecordsIff(env: Env, log: Log, key: string, id: string, dcs: seq<DsClient>,
                                      cs: seq<Client>)
    ensures var r := VerifyClients(env, log, key, id, dcs);
            r.Ok? && r.value.0 == cs <==> RecordsFor(env, key, id, Registering(dcs), cs)
    decreases |dcs|, 1
  {
    if dcs != [] {
      var n := |dcs| - 1;
      ClientsStep(env, log, key, id, dcs);
      if dcs[n].registration.None? {
        RecordsIff(env, log, key, id, dcs[..n], cs);
      } else if cs != [] {
        LastRecordIff(env, log, key, id, dcs, cs[..|cs| - 1], cs[|cs| - 1]);
        assert cs == cs[..|cs| - 1] + [cs[|cs| - 1]];
      } else if VerifyClient(env, log, key, id, dcs[n]).Ok? {
        OneRecord(env, log, key, id, dcs[n], Client("", NoAddress, NoAddress, "", "", ""));
      }
    }
  }

  lemma {:induction false} LastRecordIff(env: Env, log: Log, key: string, id: string, dcs: seq<DsClient>,
                                         cs: seq<Client>, c: Client)
    requires dcs != [] && dcs[|dcs| - 1].registration.Some?
    ensures var r := VerifyClients(env, log, key, id, dcs);
            r.Ok? && r.value.0 == cs + [c] <==> RecordsFor(env, key, id, Registering(dcs), cs + [c])
    decreases |dcs|, 0
  {
    var n := |dcs| - 1;
    var q, r := VerifyClients(env, log, key, id, dcs[..n]), VerifyClient(env, log, key, id, dcs[n]);
    ClientsStep(env, log, key, id, dcs);
    RecordsIff(env, log, key, id, dcs[..n], cs);
    RecordsSnoc(env, key, id, Registering(dcs[..n]), dcs[n], cs, c);
    OneRecord(env, log, key, id, dcs[n], c);
    if q.Ok? && r.Ok? {
      SnocSame(q.value.0, r.value.0[0], cs, c);
      assert r.value.0 == [r.value.0[0]];
    }
  }

  lemma {:induction false} SnocSame<T>(a: seq<T>, x: T, b: seq<T>, y: T)
    ensures a + [x] == b + [y] <==> a == b && x == y
  {
    if a + [x] == b + [y] {
      assert a == (a + [x])[..|a|] && b == (b + [y])[..|b|];
      assert x == (a + [x])[|a|] && y == (b + [y])[|b|];
    }
  }

  lemma {:induction false} RecordsSnoc(env: Env, key: string, id: string, rs: seq<DsClient>, r: DsClient,
                                       cs: seq<Client>, c: Client)
    ensures RecordsFor(env, key, id, rs + [r], cs + [c])
            <==> RecordsFor(env, key, id, rs, cs) && RecordFor(env, key, id, r, c)
  {
    if RecordsFor(env, key, id, rs + [r], cs + [c]) {
      forall j | 0 <= j < |cs|
        ensures RecordFor(env, key, id, rs[j], cs[j])
      {
        assert RecordFor(env, key, id, (rs + [r])[j], (cs + [c])[j]);
      }
      assert RecordFor(env, key, id, (rs + [r])[|cs|], (cs + [c])[|cs|]);
    }
  }

  lemma {:induction false} LeasesStep(env: Env, log: Log, key: string, id: string, dcs: seq<DsClient>)
    requires dcs != [] && VerifyClients(env, log, key, id, dcs).Ok?
    ensures var n := |dcs| - 1;
            var r, rs := VerifyClients(env, log, key, id, dcs[..n]), Registering(dcs[..n]);
            && r.Ok?
            && Registering(dcs) == (if dcs[n].registration.Some? then rs + [dcs[n]] else rs)
            && VerifyClients(env, log, key, id, dcs).value.1
               == if dcs[n].registration.Some? && Leased(env, log, dcs[n])
                  then r.value.1[dcs[n].key := dcs[n].lease.value.ip] else r.value.1
  {
    var n := |dcs| - 1;
    var ls := VerifyClients(env, log, key, id, dcs[..n]).value.1;
    assert ls + map[] == ls;
    if dcs[n].registration.Some? {
      OneRecord(env, log, key, id, dcs[n], VerifyClient(env, log, key, id, dcs[n]).value.0[0]);
    }
  }

  lemma {:induction false} LeasesAre(env: Env, log: Log, key: string, id: string, dcs: seq<DsClient>)
    requires VerifyClients(env, log, key, id, dcs).Ok?
    ensures LeasesOf(env, log, Registering(dcs), VerifyClients(env, log, key, id, dcs).value.1)
  {
    if dcs != [] {
      var n := |dcs| - 1;
      LeasesStep(env, log, key, id, dcs);
      LeasesAre(env, log, key, id, dcs[..n]);
      if dcs[n].registration.Some? {
        LeasesSnoc(env, log, Registering(dcs[..n]), dcs[n], VerifyClients(env, log, key, id, dcs[..n]).value.1);
      }
    }
  }

  lemma {:induction false} LeasesSnoc(env: Env, log: Log, rs: seq<DsClient>, r: DsClient, ls: Leases)
    requires LeasesOf(env, log, rs, ls)
    ensures LeasesOf(env, log, rs + [r], if Leased(env, log, r) then ls[r.key := r.lease.value.ip] else ls)
  {
    var qs := rs + [r];
    var ms := if Leased(env, log, r) then ls[r.key := r.lease.value.ip] else ls;
    forall k | k in ms
      ensures exists i :: LeaseDecides(env, log, qs, k, i) && qs[i].lease.value.ip == ms[k]
    {
      if Leased(env, log, r) && k == r.key {
        assert LeaseDecides(env, log, qs, k, |rs|);
      } else {
        var i :| LeaseDecides(env, log, rs, k, i) && rs[i].lease.value.ip == ls[k];
        assert qs[i] == rs[i] && LeaseDecides(env, log, qs, k, i);
      }
    }
    forall k, i | LeaseDecides(env, log, qs, k, i)
      ensures k in ms
    {
      if i < |rs| {
        assert qs[i] == rs[i];
        forall j | i < j < |rs| && rs[j].key == k
          ensures !Leased(env, log, rs[j])
        {
          assert qs[j] == rs[j];
        }
        assert LeaseDecides(env, log, rs, k, i);
      }
    }
  }

  lemma {:induction false} LeasesOnce(env: Env, log: Log, rs: seq<DsClient>, ls: Leases, ms: Leases)
    requires LeasesOf(env, log, rs, ls) && LeasesOf(env, log, rs, ms)
    ensures ls == ms
  {
    forall k | k in ls || k in ms
      ensures k in ls && k in ms && ls[k] == ms[k]
    {
      SameLease(env, log, rs, ls, ms, k);
    }
  }

  lemma {:induction false} SameLease(env: Env, log: Log, rs: seq<DsClient>, ls: Leases, ms: Leases, k: Key)
    requires LeasesOf(env, log, rs, ls) && LeasesOf(env, log, rs, ms) && (k in ls || k in ms)
    ensures k in ls && k in ms && ls[k] == ms[k]
  {
    var i :| LeaseDecides(env, log, rs, k, i);
    assert k in ls && k in ms;
    var x :| LeaseDecides(env, log, rs, k, x) && rs[x].lease.value.ip == ls[k];
    var y :| LeaseDecides(env, log, rs, k, y) && rs[y].lease.value.ip == ms[k];
    assert x == y;
  }

  /** The clients of a pushed member are those it registered itself, in order, and the leases that count are
      the ones this agent signed. */
  lemma {:induction false} ClientsIff(env: Env, log: Log, key: string, id: string, dcs: seq<DsClient>,
                                      cs: seq<Client>, ls: Leases)
    ensures VerifyClients(env, log, key, id, dcs) == Ok((cs, ls))
            <==> RecordsFor(env, key, id, Registering(dcs), cs) && LeasesOf(env, log, Registering(dcs), ls)
  {
    RecordsIff(env, log, key, id, dcs, cs);
    if VerifyClients(env, log, key, id, dcs).Ok? {
      LeasesAre(env, log, key, id, dcs);
      if LeasesOf(env, log, Registering(dcs), ls) {
        LeasesOnce(env, log, Registering(dcs), ls, VerifyClients(env, log, key, id, dcs).value.1);
      }
    }
  }

  // ---- admission ----

  /** The owner has signed an invite to this device that has not lapsed by more than five minutes, and its
      holder has signed for this identity key. */
  predicate Joins(env: Env, owner: string, att: JoinAttestation, identityKey: string, now: Time, inv: Invite) {
    && att.payloadText != "" && att.ownerSig != "" && att.acceptanceSig != ""
    && att.raw.Some? && att.canon.Some? && att.invite == Some(inv)
    && env.verify(owner, att.canon.value, att.ownerSig)
    && (inv.expiresAt.NoExpiry? || (inv.expiresAt.At? && now <= inv.expiresAt.t + 5 * 60 * 1_000_000_000))
    && env.nasPub != "" && inv.nasPubkey == env.nasPub && inv.invitePub != ""
    && env.decodeKey(inv.invitePub).Some? && env.decodeKey(identityKey).Some?
    && env.verify(env.decodeKey(inv.invitePub).value, env.decodeKey(identityKey).value, att.acceptanceSig)
  }

  lemma {:induction false} JoinIff(env: Env, att: JoinAttestation, identityKey: string, owner: string, now: Time,
                                   inv: Invite)
    ensures VerifyJoin(env, att, identityKey, owner, now) == Ok(inv) <==> Joins(env, owner, att, identityKey, now, inv)
  {
  }

  /** This agent signed exactly this certificate, for this member and key. */
  predicate OwnCertificate(env: Env, log: Log, c: Certificate, id: string, identityKey: string) {
    && c.memberId == id && c.identityKey == identityKey && c.nasPubkey == env.nasPub
    && CertBytes(c) in log && c.signature == Sign(CertBytes(c))
  }

  /** The certificate an agent writes for a member it has just vetted. */
  predicate NewCertificate(env: Env, dm: DsMember, raw: string, inv: Invite, now: Time, c: Certificate) {
    && dm.id != "" && dm.identityKey != "" && env.nasPub != "" && raw != ""
    && c.memberId == dm.id && c.identityKey == dm.identityKey && c.nasPubkey == env.nasPub
    && c.admittedAt == now / 1_000_000_000 && c.attestationHash == Hash(raw) && c.initialApps == inv.allowedAppIds
    && c.signature == Sign(CertBytes(c))
  }

  predicate LastWithId(ms: seq<Member>, id: string, i: int) {
    0 <= i < |ms| && ms[i].id == id && forall j :: i < j < |ms| ==> ms[j].id != id
  }

  /** The certificate the ACL already holds for this id. */
  ghost predicate OnFile(ms: seq<Member>, id: string, c: Certificate) {
    exists i :: LastWithId(ms, id, i) && ms[i].admittance == Some(c)
  }

  ghost predicate JoinsNow(ctx: Ctx, log: Log, dm: DsMember, c: Certificate, log': Log) {
    exists inv :: dm.join.Some? && Joins(ctx.env, ctx.owner, dm.join.value, dm.identityKey, ctx.now, inv)
                  && NewCertificate(ctx.env, dm, dm.join.value.raw.value, inv, ctx.now, c)
                     && log' == log + {CertBytes(c)}
  }

  /** How somebody gets in: an admin without more; anybody else with the certificate pushed for it, or else
      the one on file, or else with a new one. */
  ghost predicate AdmittedWith(ctx: Ctx, log: Log, dm: DsMember, cert: Option<Certificate>, log': Log) {
    if dm.role == "admin" || dm.role == "owner" then cert == None && log' == log
    else
      cert.Some? &&
      var c := cert.value;
      if dm.admittance.Some? then
        c == dm.admittance.value && OwnCertificate(ctx.env, log, c, dm.id, dm.identityKey) && log' == log
      else if exists d :: OnFile(ctx.known, dm.id, d) then
        OnFile(ctx.known, dm.id, c) && OwnCertificate(ctx.env, log, c, dm.id, dm.identityKey) && log' == log
      else JoinsNow(ctx, log, dm, c, log')
  }

  function Initial(cert: Option<Certificate>): seq<string> {
    match cert case None => [] case Some(c) => c.initialApps
  }

  lemma {:induction false} OnFileIs(ms: seq<Member>, id: string, c: Certificate)
    ensures OnFile(ms, id, c)
            <==> var m := Find(ms, HasId, id); m.Some? && m.value.admittance == Some(c)
  {
    if Find(ms, HasId, id).Some? {
      assert LastWithId(ms, id, LastMatch(ms, HasId, id).value);
    }
  }

  lemma {:induction false} MintIff(ctx: Ctx, dm: DsMember, raw: string, inv: Invite, c: Certificate)
    ensures Mint(ctx.env, dm.id, dm.identityKey, raw, inv.allowedAppIds, ctx.now) == Ok(c)
            <==> NewCertificate(ctx.env, dm, raw, inv, ctx.now, c)
  {
    assert CertTree(c) == CertTree(c.(signature := ""));
  }

  lemma {:induction false} JoinsNowIff(ctx: Ctx, log: Log, dm: DsMember, c: Certificate, log': Log)
    requires !dm.IsAdmin() && dm.admittance.None? && !exists d :: OnFile(ctx.known, dm.id, d)
    ensures Admit(ctx, log, dm) == (log', Ok((Some(c), c.initialApps))) <==> JoinsNow(ctx, log, dm, c, log')
  {
    var m := Find(ctx.known, HasId, dm.id);
    if m.Some? && m.value.admittance.Some? {
      OnFileIs(ctx.known, dm.id, m.value.admittance.value);
    }
    if dm.join.Some? {
      forall inv
        ensures VerifyJoin(ctx.env, dm.join.value, dm.identityKey, ctx.owner, ctx.now) == Ok(inv)
                <==> Joins(ctx.env, ctx.owner, dm.join.value, dm.identityKey, ctx.now, inv)
      {
        JoinIff(ctx.env, dm.join.value, dm.identityKey, ctx.owner, ctx.now, inv);
      }
      var r := VerifyJoin(ctx.env, dm.join.value, dm.identityKey, ctx.owner, ctx.now);
      if r.Ok? {
        MintIff(ctx, dm, dm.join.value.raw.value, r.value, c);
      }
    }
  }

  lemma {:induction false} AdmitIff(ctx: Ctx, log: Log, dm: DsMember, cert: Option<Certificate>,
                                    initialApps: seq<string>, log': Log)
    ensures Admit(ctx, log, dm) == (log', Ok((cert, initialApps)))
            <==> AdmittedWith(ctx, log, dm, cert, log') && initialApps == Initial(cert)
  {
    if !dm.IsAdmin() && dm.admittance.None? && cert.Some? {
      OnFileIs(ctx.known, dm.id, cert.value);
      if d :| OnFile(ctx.known, dm.id, d) {
        OnFileIs(ctx.known, dm.id, d);
      } else {
        JoinsNowIff(ctx, log, dm, cert.value, log');
      }
    }
  }
}
