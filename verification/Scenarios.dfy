/** What an owner can send, with proper signatures, to an agent fresh from pairing: building blocks for
    runs that show the exceptions are real. */
module Scenarios {
  import opened Base
  import opened Addresses
  import opened Wire
  import opened Acl
  import opened Signing
  import opened DeviceState
  import opened Addressing
  import opened Provisioning
  import opened AgentRuns
  import Al = Allocator
  import T = Text
  import N = Nonces
  import Ra = Reapply

  const OWNER := "owner-key"

  function Signed(key: string, msg: string): string {
    key + ":" + msg
  }

  /** Keys decode and holders' signatures verify. */
  ghost predicate Ideal(env: Env) {
    env.tunnelHost != "" && (forall k :: env.decodeKey(k) == Some(k)) && (forall k, m :: env.verify(k, m, Signed(k, m)))
  }

  function IdealEnv(server6: Address, ipText: Address -> string): Env {
    Env("device", "nas", "host", server6, (k: string) => Some(k),
        (k: string, m: string, sig: string) => sig == Signed(k, m),
        (url: string) => url != "", ipText,
          (nonce: string, k: Al.Key, ip: Address) => Some("________________________________"))
  }

  lemma {:induction false} IdealEnvIsIdeal(server6: Address, ipText: Address -> string)
    ensures Ideal(IdealEnv(server6, ipText))
  {
  }

  function AllInstall(): AddOk {
    (i: nat, j: nat) => true
  }

  // ---- a push of owner entries ----

  /** An entry that says it is an owner's: its clients, its identity key and whether it is suspended. */
  datatype Owner = Owner(id: string, keys: seq<Al.Key>, key: string := OWNER, suspended: bool := false)

  function Status(o: Owner): string {
    if o.suspended then "suspended" else "active"
  }

  function StatusEnvelope(env: Env, o: Owner): Envelope<StatusPayload> {
    var intent := "member:status-" + env.deviceId + "-" + o.id + "-" + Status(o) + "-" + T.Decimal(0);
    Envelope(Some(StatusPayload(intent, 0, o.id, Status(o))), Some(intent), "m", Signed(OWNER, intent))
  }

  function Registration(env: Env, o: Owner, k: Al.Key): DsClient {
    var intent := "wg:client-register-" + env.deviceId + "-" + o.id + "-" + k + "-" + T.Decimal(0);
    DsClient(k, "", "", "",
             Some(Envelope(Some(RegisterPayload(intent, 0, o.id, k)), Some(intent), o.id, Signed(o.key, intent))), None)
  }

  function Registrations(env: Env, o: Owner, ks: seq<Al.Key>): seq<DsClient> {
    if ks == [] then [] else Registrations(env, o, ks[..|ks| - 1]) + [Registration(env, o, ks[|ks| - 1])]
  }

  function Blanks(ks: seq<Al.Key>): seq<Client> {
    if ks == [] then [] else Blanks(ks[..|ks| - 1]) + [Client(ks[|ks| - 1], NoAddress, NoAddress, "", "", "")]
  }

  function Entry(env: Env, o: Owner): DsMember {
    DsMember(o.id, "", "", "", "owner", o.key, None, None, Some(StatusEnvelope(env, o)), None,
             Registrations(env, o, o.keys))
  }

  function Entries(env: Env, os: seq<Owner>): seq<DsMember> {
    if os == [] then [] else Entries(env, os[..|os| - 1]) + [Entry(env, os[|os| - 1])]
  }

  /** The entry as verified, before it has addresses. */
  function OwnerMember(o: Owner, apps: seq<App>): Member {
    Member(o.id, "", "", "", "owner", o.key, None, None, Blanks(o.keys), apps, Status(o))
  }

  function OwnerMembers(os: seq<Owner>, apps: seq<App>): seq<Member> {
    if os == [] then [] else OwnerMembers(os[..|os| - 1], apps) + [OwnerMember(os[|os| - 1], apps)]
  }

  function AppEnvelopes(env: Env, apps: seq<App>): seq<Option<Envelope<AppPayload>>> {
    if apps == [] then []
    else
      var a := apps[|apps| - 1];
      var intent := "app:upserted-" + env.deviceId + "-" + a.id;
      AppEnvelopes(env, apps[..|apps| - 1])
        + [Some(Envelope(Some(AppPayload(intent, a)), Some(intent), "m", Signed(OWNER, intent)))]
  }

  function OwnerPush(env: Env, generation: int, os: seq<Owner>, apps: seq<App>): Push {
    Push("", generation, Entries(env, os), AppEnvelopes(env, apps))
  }

  lemma {:induction false} RegistrationsVerify(env: Env, log: Log, o: Owner, ks: seq<Al.Key>)
    requires Ideal(env) && o.id != ""
    ensures VerifyClients(env, log, o.key, o.id, Registrations(env, o, ks)) == Ok((Blanks(ks), map[]))
  {
    if ks != [] {
      var front, dcs := Registrations(env, o, ks[..|ks| - 1]), Registrations(env, o, ks);
      RegistrationsVerify(env, log, o, ks[..|ks| - 1]);
      RegistrationVerifies(env, log, o, ks[|ks| - 1]);
      assert dcs[..|dcs| - 1] == front && dcs[|dcs| - 1] == Registration(env, o, ks[|ks| - 1]);
    }
  }

  lemma {:induction false} RegistrationVerifies(env: Env, log: Log, o: Owner, k: Al.Key)
    requires Ideal(env) && o.id != ""
    ensures VerifyClient(env, log, o.key, o.id, Registration(env, o, k))
            == Ok(([Client(k, NoAddress, NoAddress, "", "", "")], map[]))
  {
    var intent := "wg:client-register-" + env.deviceId + "-" + o.id + "-" + k + "-" + T.Decimal(0);
    assert env.verify(o.key, intent, Signed(o.key, intent));
    assert |Signed(o.key, intent)| == |o.key| + 1 + |intent|;
  }

  lemma {:induction false} StatusVerifies(ctx: Ctx, o: Owner)
    requires Ideal(ctx.env) && ctx.owner == OWNER
    ensures VerifyStatus(ctx, Entry(ctx.env, o)) == Ok(Status(o))
  {
    var intent := "member:status-" + ctx.env.deviceId + "-" + o.id + "-" + Status(o) + "-" + T.Decimal(0);
    assert ctx.env.verify(OWNER, intent, Signed(OWNER, intent));
    assert |Signed(OWNER, intent)| == |OWNER| + 1 + |intent|;
  }

  lemma {:induction false} EntryVerifies(ctx: Ctx, log: Log, o: Owner)
    requires Ideal(ctx.env) && ctx.owner == OWNER && o.id != ""
    ensures VerifyMember(ctx, log, Entry(ctx.env, o)) == (log, Ok((OwnerMember(o, ctx.apps), map[])))
  {
    StatusVerifies(ctx, o);
    RegistrationsVerify(ctx.env, log, o, o.keys);
  }

  lemma {:induction false} EntriesVerify(ctx: Ctx, log: Log, os: seq<Owner>)
    requires Ideal(ctx.env) && ctx.owner == OWNER && forall i :: 0 <= i < |os| ==> os[i].id != ""
    ensures VerifyMembers(ctx, log, Entries(ctx.env, os)) == Verified(true, OwnerMembers(os, ctx.apps), map[], log)
  {
    if os != [] {
      var dms := Entries(ctx.env, os);
      EntriesVerify(ctx, log, os[..|os| - 1]);
      EntryVerifies(ctx, log, os[|os| - 1]);
      assert dms[..|dms| - 1] == Entries(ctx.env, os[..|os| - 1]) && dms[|dms| - 1] == Entry(ctx.env, os[|os| - 1]);
    }
  }

  lemma {:induction false} AppsVerify(env: Env, apps: seq<App>)
    requires Ideal(env) && forall i :: 0 <= i < |apps| ==> ValidApp(env, apps[i])
    ensures VerifyApps(env, OWNER, AppEnvelopes(env, apps)) == Ok(apps)
  {
    if apps != [] {
      var n, das := |apps| - 1, AppEnvelopes(env, apps);
      AppsVerify(env, apps[..n]);
      assert das[..|das| - 1] == AppEnvelopes(env, apps[..n]);
      AppVerifies(env, apps, das[|das| - 1]);
      assert apps[..n] + [apps[n]] == apps;
    }
  }

  lemma {:induction false} AppVerifies(env: Env, apps: seq<App>, da: Option<Envelope<AppPayload>>)
    requires Ideal(env) && apps != [] && ValidApp(env, apps[|apps| - 1])
    requires var das := AppEnvelopes(env, apps); das != [] && da == das[|das| - 1]
    ensures VerifyApp(env, OWNER, da) == Ok([apps[|apps| - 1]])
  {
    var intent := "app:upserted-" + env.deviceId + "-" + apps[|apps| - 1].id;
    assert env.verify(OWNER, intent, Signed(OWNER, intent));
  }

  ghost predicate AllOwners(ms: seq<Member>) {
    forall i :: 0 <= i < |ms| ==> ms[i].identityKey == OWNER
  }

  lemma {:induction false} MembersAreOwners(os: seq<Owner>, apps: seq<App>)
    ensures |OwnerMembers(os, apps)| == |os|
    ensures forall i :: 0 <= i < |os| ==> OwnerMembers(os, apps)[i] == OwnerMember(os[i], apps)
  {
    if os != [] {
      MembersAreOwners(os[..|os| - 1], apps);
    }
  }

  lemma {:induction false} OwnersPin(env: Env, a: Al.Alloc, os: seq<Owner>, apps: seq<App>)
    requires Al.Valid(a) && Al.Canonical(a) && AssignMembers(a, map[], OwnerMembers(os, apps)).ok
    requires forall i :: 0 <= i < |os| ==> os[i].key == OWNER
    ensures PinOk(Some(OWNER), DeriveV6(env.server6, AssignMembers(a, map[], OwnerMembers(os, apps)).done))
  {
    var r := AssignMembers(a, map[], OwnerMembers(os, apps));
    AssignMembersOk(a, map[], OwnerMembers(os, apps));
    MembersAreOwners(os, apps);
    forall i | 0 <= i < |r.done|
      ensures r.done[i].identityKey == OWNER
    {
      assert SitedMember(r.alloc, OwnerMembers(os, apps)[i], r.done[i]);
    }
  }

  lemma {:induction false} PushAssigned(env: Env, s: State, p: Push, now: Time, apps: seq<App>, os: seq<Owner>)
    requires Ideal(env) && p == OwnerPush(env, p.generation, os, apps)
    requires (forall i :: 0 <= i < |os| ==> os[i].id != "") && (forall i :: 0 <= i < |apps| ==> ValidApp(env, apps[i]))
    ensures VerifyApps(env, OWNER, p.apps) == Ok(apps)
    ensures VerifyMembers(Ctx(env, OWNER, s.members, apps, now), s.log, p.members)
            == Verified(true, OwnerMembers(os, apps), map[], s.log)
  {
    AppsVerify(env, apps);
    EntriesVerify(Ctx(env, OWNER, s.members, apps, now), s.log, os);
  }

  /** An agent paired with this owner applies the push whenever there are addresses for its clients. */
  lemma {:induction false} PushApplies(env: Env, s: State, generation: int, os: seq<Owner>, apps: seq<App>, now: Time)
    requires Ideal(env) && AllocSound(s) && s.pin == Some(OWNER) && generation >= s.generation
    requires (forall i :: 0 <= i < |os| ==> os[i].id != "") && (forall i :: 0 <= i < |apps| ==> ValidApp(env, apps[i]))
    requires forall i :: 0 <= i < |os| ==> os[i].key == OWNER
    requires AssignMembers(s.alloc, map[], OwnerMembers(os, apps)).ok
    ensures var a := AssignMembers(s.alloc, map[], OwnerMembers(os, apps));
            HandlePush(env, s, OwnerPush(env, generation, os, apps), now, now, AllInstall())
            == (Commit(s.(alloc := a.alloc), DeriveV6(env.server6, a.done), apps, generation, now, now, AllInstall()),
                Applied)
  {
    var p, a := OwnerPush(env, generation, os, apps), AssignMembers(s.alloc, map[], OwnerMembers(os, apps));
    PushAssigned(env, s, p, now, apps, os);
    OwnersPin(env, s.alloc, os, apps);
    var v := VerifyMembers(Ctx(env, OWNER, s.members, apps, now), s.log, p.members);
    assert s.(log := v.log, alloc := a.alloc) == s.(alloc := a.alloc);
    Ra.AcceptedIsApplied(env, s, p, now, now, AllInstall(), OWNER, apps, v, a);
  }

  // ---- one client, none, and one client under two entries of one id ----

  function SitsAt(env: Env, k: Al.Key, ip: Address): Client {
    Client(k, ip, TunnelIPv6(env.server6, ip), "", "", "")
  }

  function OwnerWith(id: string, cs: seq<Client>, apps: seq<App>, status: string := "active"): Member {
    Member(id, "", "", "", "owner", OWNER, None, None, cs, apps, status)
  }

  lemma {:induction false} BlankOne(k: Al.Key)
    ensures Blanks([k]) == [Client(k, NoAddress, NoAddress, "", "", "")]
  {
    assert [k][..0] == [];
  }

  lemma {:induction false} AssignOne(a: Al.Alloc, k: Al.Key)
    requires Al.Valid(a) && k != "" && Al.Allocate(a, k).1.Some?
    ensures AssignClients(a, map[], Blanks([k]))
            == Assigned(true, Al.Allocate(a, k).0, [Client(k, Al.Allocate(a, k).1.value, NoAddress, "", "", "")])
  {
    BlankOne(k);
    var cs := Blanks([k]);
    assert cs[..0] == [];
    if k in a.bound {
      assert Al.Holdable(a, a.bound[k]);
    }
  }

  lemma {:induction false} AssignSnoc(a: Al.Alloc, ms: seq<Member>, m: Member)
    requires AssignMembers(a, map[], ms).ok && AssignClients(AssignMembers(a, map[], ms).alloc, map[], m.clients).ok
    ensures var r := AssignMembers(a, map[], ms);
            var cs := AssignClients(r.alloc, map[], m.clients);
            AssignMembers(a, map[], ms + [m]) == Assigned(true, cs.alloc, r.done + [m.(clients := cs.done)])
  {
    var ns := ms + [m];
    assert ns[..|ns| - 1] == ms && ns[|ns| - 1] == m;
  }

  lemma {:induction false} OneOwner(o: Owner, apps: seq<App>)
    ensures OwnerMembers([o], apps) == [OwnerMember(o, apps)]
  {
    MembersAreOwners([o], apps);
  }

  lemma {:induction false} AssignOneMember(a: Al.Alloc, o: Owner, k: Al.Key, apps: seq<App>)
    requires Al.Valid(a) && k != "" && Al.Allocate(a, k).1.Some? && o.keys == [k]
    ensures AssignMembers(a, map[], OwnerMembers([o], apps))
            == Assigned(true, Al.Allocate(a, k).0,
                        [OwnerMember(o, apps).(clients :=
                                               [Client(k, Al.Allocate(a, k).1.value, NoAddress, "", "", "")])])
  {
    OneOwner(o, apps);
    AssignOne(a, k);
    AssignSnoc(a, [], OwnerMember(o, apps));
    assert [] + [OwnerMember(o, apps)] == [OwnerMember(o, apps)];
  }

  lemma {:induction false} DeriveOne(env: Env, k: Al.Key, ip: Address, m: Member)
    requires ip != NoAddress
    ensures DeriveV6(env.server6, [m.(clients := [Client(k, ip, NoAddress, "", "", "")])])
            == [m.(clients := [SitsAt(env, k, ip)])]
  {
    var n := m.(clients := [Client(k, ip, NoAddress, "", "", "")]);
    assert DeriveClients(env.server6, n.clients) == [SitsAt(env, k, ip)];
    assert DeriveV6(env.server6, [n]) == [n.(clients := DeriveClients(env.server6, n.clients))];
  }

  lemma {:induction false} OnePush(env: Env, s: State, generation: int, k: Al.Key, apps: seq<App>, now: Time,
                                   suspended: bool := false)
    requires Ideal(env) && AllocSound(s) && s.pin == Some(OWNER) && generation >= s.generation && k != ""
    requires (forall i :: 0 <= i < |apps| ==> ValidApp(env, apps[i])) && Al.Allocate(s.alloc, k).1.Some?
    ensures var o := Owner("m", [k], OWNER, suspended);
            var (a, ip) := Al.Allocate(s.alloc, k);
            HandlePush(env, s, OwnerPush(env, generation, [o], apps), now, now, AllInstall())
            == (Commit(s.(alloc := a), [OwnerWith("m", [SitsAt(env, k, ip.value)], apps, Status(o))], apps, generation,
                       now, now,
                       AllInstall()), Applied)
  {
    var o, ip := Owner("m", [k], OWNER, suspended), Al.Allocate(s.alloc, k).1.value;
    AssignOneMember(s.alloc, o, k, apps);
    PushApplies(env, s, generation, [o], apps, now);
    Al.AllocateLowestFree(s.alloc, k);
    Al.StepKeeps(s.alloc, Al.DoAllocate(k));
    assert Al.Holdable(Al.Allocate(s.alloc, k).0, ip);
    DeriveOne(env, k, ip, OwnerMember(o, apps));
  }

  lemma {:induction false} NonePush(env: Env, s: State, generation: int, apps: seq<App>, now: Time,
                                    suspended: bool := false)
    requires Ideal(env) && AllocSound(s) && s.pin == Some(OWNER) && generation >= s.generation
    requires forall i :: 0 <= i < |apps| ==> ValidApp(env, apps[i])
    ensures var o := Owner("m", [], OWNER, suspended);
            HandlePush(env, s, OwnerPush(env, generation, [o], apps), now, now, AllInstall())
            == (Commit(s, [OwnerWith("m", [], apps, Status(o))], apps, generation, now, now, AllInstall()), Applied)
  {
    var o := Owner("m", [], OWNER, suspended);
    OneOwner(o, apps);
    AssignSnoc(s.alloc, [], OwnerMember(o, apps));
    assert [] + [OwnerMember(o, apps)] == [OwnerMember(o, apps)];
    var a := AssignMembers(s.alloc, map[], OwnerMembers([o], apps));
    PushApplies(env, s, generation, [o], apps, now);
    assert DeriveV6(env.server6, a.done) == [OwnerWith("m", [], apps, Status(o))];
  }

  /** Two entries of one id, of which the second has the client. */
  lemma {:induction false} SplitPush(env: Env, s: State, generation: int, k: Al.Key, now: Time)
    requires Ideal(env) && AllocSound(s) && s.pin == Some(OWNER) && generation >= s.generation && k != ""
    requires Al.Allocate(s.alloc, k).1.Some?
    ensures var (a, ip) := Al.Allocate(s.alloc, k);
            HandlePush(env, s, OwnerPush(env, generation, [Owner("m", []), Owner("m", [k])], []), now, now,
                       AllInstall())
            == (Commit(s.(alloc := a), [OwnerWith("m", [], []), OwnerWith("m", [SitsAt(env, k, ip.value)], [])], [],
                       generation,
                       now, now, AllInstall()), Applied)
  {
    var (a, ip) := Al.Allocate(s.alloc, k);
    var os := [Owner("m", []), Owner("m", [k])];
    MembersAreOwners(os, []);
    assert OwnerMembers(os, []) == [OwnerMember(os[0], []), OwnerMember(os[1], [])];
    AssignSplit(s.alloc, k);
    PushApplies(env, s, generation, os, [], now);
    Al.AllocateLowestFree(s.alloc, k);
    Al.StepKeeps(s.alloc, Al.DoAllocate(k));
    assert Al.Holdable(a, a.bound[k]);
    DeriveSplit(env, k, ip.value);
  }

  lemma {:induction false} DeriveSplit(env: Env, k: Al.Key, ip: Address)
    requires ip != NoAddress
    ensures DeriveV6(env.server6, [OwnerWith("m", [], []), OwnerWith("m", [Client(k, ip, NoAddress, "", "", "")], [])])
            == [OwnerWith("m", [], []), OwnerWith("m", [SitsAt(env, k, ip)], [])]
  {
    assert DeriveClients(env.server6, []) == [];
    assert DeriveClients(env.server6, [Client(k, ip, NoAddress, "", "", "")]) == [SitsAt(env, k, ip)];
  }

  lemma {:induction false} AssignSplit(a: Al.Alloc, k: Al.Key)
    requires Al.Valid(a) && k != "" && Al.Allocate(a, k).1.Some?
    ensures var o, q := OwnerMember(Owner("m", []), []), OwnerMember(Owner("m", [k]), []);
            AssignMembers(a, map[], [o, q])
            == Assigned(true, Al.Allocate(a, k).0,
                        [o, OwnerWith("m", [Client(k, Al.Allocate(a, k).1.value, NoAddress, "", "", "")], [])])
  {
    var o, q := OwnerMember(Owner("m", []), []), OwnerMember(Owner("m", [k]), []);
    AssignOne(a, k);
    AssignSnoc(a, [], o);
    assert [] + [o] == [o] && [o] + [q] == [o, q];
    AssignSnoc(a, [o], q);
  }

  lemma {:induction false} TwicePush(env: Env, s: State, generation: int, k: Al.Key, now: Time)
    requires Ideal(env) && AllocSound(s) && s.pin == Some(OWNER) && generation >= s.generation && k != ""
    requires Al.Allocate(s.alloc, k).1.Some?
    ensures var (a, ip) := Al.Allocate(s.alloc, k);
            var m := OwnerWith("m", [SitsAt(env, k, ip.value)], []);
            HandlePush(env, s, OwnerPush(env, generation, [Owner("m", [k]), Owner("m", [k])], []), now, now,
                       AllInstall())
            == (Commit(s.(alloc := a), [m, m], [], generation, now, now, AllInstall()), Applied)
  {
    var (a, ip) := Al.Allocate(s.alloc, k);
    var os := [Owner("m", [k]), Owner("m", [k])];
    MembersAreOwners(os, []);
    assert OwnerMembers(os, []) == [OwnerMember(os[0], []), OwnerMember(os[0], [])];
    AssignTwice(s.alloc, k);
    PushApplies(env, s, generation, os, [], now);
    Al.AllocateLowestFree(s.alloc, k);
    Al.StepKeeps(s.alloc, Al.DoAllocate(k));
    assert Al.Holdable(a, a.bound[k]);
    DeriveTwice(env, k, ip.value);
  }

  lemma {:induction false} DeriveTwice(env: Env, k: Al.Key, ip: Address)
    requires ip != NoAddress
    ensures var m, n := OwnerWith("m", [Client(k, ip, NoAddress, "", "", "")], []),
            OwnerWith("m", [SitsAt(env, k, ip)], []);
            DeriveV6(env.server6, [m, m]) == [n, n]
  {
    var m := OwnerWith("m", [Client(k, ip, NoAddress, "", "", "")], []);
    assert DeriveClients(env.server6, m.clients) == [SitsAt(env, k, ip)];
  }

  lemma {:induction false} AssignTwice(a: Al.Alloc, k: Al.Key)
    requires Al.Valid(a) && k != "" && Al.Allocate(a, k).1.Some?
    ensures var o := OwnerMember(Owner("m", [k]), []);
            var m := OwnerWith("m", [Client(k, Al.Allocate(a, k).1.value, NoAddress, "", "", "")], []);
            AssignMembers(a, map[], [o, o]) == Assigned(true, Al.Allocate(a, k).0, [m, m])
  {
    var o := OwnerMember(Owner("m", [k]), []);
    var b := Al.Allocate(a, k).0;
    Al.AllocateLowestFree(a, k);
    Al.StepKeeps(a, Al.DoAllocate(k));
    AssignOne(a, k);
    AssignOne(b, k);
    AssignSnoc(a, [], o);
    assert [] + [o] == [o] && [o] + [o] == [o, o];
    AssignSnoc(a, [o], o);
  }

  // ---- challenge and provision ----

  function Cmd(id: string, intent: string, now: Time): Command {
    Command(intent, now / SECOND, Some(intent), id, Signed(OWNER, intent))
  }

  function Challenge(id: string, k: Al.Key, now: Time): Event {
    ChallengeArrives(ChallengeReq("c", id, "", k, Cmd(id, "wg:challenge-" + id + "-" + T.Decimal(now / SECOND), now)),
                     "nonce", now)
  }

  function Request(id: string, k: Al.Key, now: Time, added: bool): Event {
    var intent := "wg:provision-" + id + "-" + "" + "-" + "nonce" + "-" + T.Decimal(now / SECOND);
    ProvisionArrives(ProvisionReq("p", "c", "", k, "nonce", Cmd(id, intent, now)), now, added)
  }

  lemma {:induction false} Commanded(env: Env, ms: seq<Member>, id: string, intent: string, now: Time)
    requires Ideal(env) && AllOwners(ms) && id != "" && FirstMember(ms, id) < |ms|
    ensures FromMember(env, ms, id, Cmd(id, intent, now), intent, now)
  {
    OwnerFound(ms, id);
    assert env.verify(OWNER, intent, Signed(OWNER, intent));
    assert |Signed(OWNER, intent)| == |OWNER| + 1 + |intent|;
  }

  lemma {:induction false} Challenged(env: Env, s: State, id: string, k: Al.Key, now: Time)
    requires Ideal(env) && AllOwners(s.members) && id != "" && FirstMember(s.members, id) < |s.members|
    ensures Step(env, s, Challenge(id, k, now)) == s.(nonces := s.nonces["c" := N.Entry("nonce", id, k, now)])
  {
    Commanded(env, s.members, id, "wg:challenge-" + id + "-" + T.Decimal(now / SECOND), now);
  }

  lemma {:induction false} OwnerFound(ms: seq<Member>, id: string)
    requires AllOwners(ms) && FirstMember(ms, id) < |ms|
    ensures Find(ms, HasId, id).Some? && Find(ms, HasId, id).value.identityKey == OWNER
  {
    assert HasId(ms[FirstMember(ms, id)], id);
  }

  lemma {:induction false} Targeted(env: Env, s: State, id: string, k: Al.Key, now: Time, added: bool)
    requires Ideal(env) && AllOwners(s.members) && id != "" && k != "" && FirstMember(s.members, id) < |s.members|
    requires "c" in s.nonces && s.nonces["c"] == N.Entry("nonce", id, k, now)
    ensures var e := Request(id, k, now, added); Target(env, s, e.provision, e.now) == Some((id, k))
  {
    Commanded(env, s.members, id, "wg:provision-" + id + "-" + "" + "-" + "nonce" + "-" + T.Decimal(now / SECOND), now);
  }
}
