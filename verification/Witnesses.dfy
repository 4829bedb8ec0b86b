/** Runs and lives of an agent fresh from pairing in which each exception actually happens. All of them
    are made of properly signed messages from the owner; AddPeer fails where said. */
module Witnesses {
  import opened Base
  import opened Addresses
  import opened Wire
  import opened Acl
  import opened Signing
  import opened DeviceState
  import opened Addressing
  import opened Peering
  import opened Membership
  import opened ProvisionFacts
  import opened AgentRuns
  import opened Scenarios
  import opened StrayPeers
  import opened Firewall
  import opened Reachability
  import opened GrantDrift
  import Al = Allocator
  import N = Nonces

  /** Pairing has put the owner, without clients, into the ACL. */
  function Paired(net: Net24, boot: Time): State {
    FreshAgent(net, V4(net, 1), OWNER, boot, [OwnerWith("m", [], [])])
  }

  lemma {:induction false} PairedIsJustPaired(net: Net24, boot: Time)
    ensures JustPaired(Paired(net, boot), OWNER) && ClientKeys(Paired(net, boot).members) == {}
  {
  }

  /** The first address the allocator gives out. */
  function First(net: Net24): Address {
    V4(net, 2)
  }

  lemma {:induction false} FirstHost(a: Al.Alloc, net: Net24, k: Al.Key)
    requires a.net == net && a.used == Al.Reserved(net, V4(net, 1)) && k !in a.bound
    ensures Al.Allocate(a, k)
            == (a.(bound := a.bound[k := First(net)], used := a.used + {First(net)}), Some(First(net)))
  {
  }

  lemma {:induction false} FreshSound(net: Net24, boot: Time)
    ensures AllocSound(Paired(net, boot))
  {
    Al.FreshValid(net, V4(net, 1));
  }

  lemma {:induction false} RunOfTwo(env: Env, s: State, evs: seq<Event>)
    requires |evs| >= 2
    ensures Run(env, s, evs[..2]) == Step(env, Step(env, s, evs[0]), evs[1])
  {
    assert evs[..2][..1] == evs[..1] && evs[..1][..0] == [];
    assert Run(env, s, evs[..1]) == Step(env, s, evs[0]);
  }

  lemma {:induction false} RunOfThree(env: Env, s: State, evs: seq<Event>)
    requires |evs| == 3
    ensures Run(env, s, evs) == Step(env, Step(env, Step(env, s, evs[0]), evs[1]), evs[2])
  {
    RunOfTwo(env, s, evs);
  }

  function PushOf(env: Env, generation: int, os: seq<Owner>, apps: seq<App>, now: Time): Event {
    PushArrives(OwnerPush(env, generation, os, apps), now, now, AllInstall())
  }

  // ---- a stray peer ----

  function StrayEvents(env: Env, now: Time): seq<Event> {
    [PushOf(env, 1, [Owner("m", ["k"])], [], now), Challenge("m", "k", now), Request("m", "k", now, false)]
  }

  lemma {:induction false} OnePeer(env: Env, ps: Peers, k: Al.Key, ip: Address, apps: seq<App>)
    requires k != "" && ip != NoAddress
    ensures InstallMembers(ps, [OwnerWith("m", [SitsAt(env, k, ip)], apps)], AllInstall()) == ps[k := ip]
  {
    var c := SitsAt(env, k, ip);
    var m := OwnerWith("m", [c], apps);
    assert [m][..0] == [] && [c][..0] == [];
    assert InstallClients(ps, [c], 0, AllInstall()) == ps[k := ip];
  }

  lemma {:induction false} OneKey(env: Env, k: Al.Key, ip: Address, apps: seq<App>)
    requires k != ""
    ensures ClientKeys([OwnerWith("m", [SitsAt(env, k, ip)], apps)]) == {k}
  {
    var ms := [OwnerWith("m", [SitsAt(env, k, ip)], apps)];
    assert ms[0].clients[0].key == k;
  }

  /** After a first push of one client. */
  lemma {:induction false} FirstPush(env: Env, net: Net24, boot: Time, k: Al.Key, apps: seq<App>, now: Time)
    requires Ideal(env) && k != "" && forall i :: 0 <= i < |apps| ==> ValidApp(env, apps[i])
    ensures var s := Step(env, Paired(net, boot), PushOf(env, 1, [Owner("m", [k])], apps, now));
            var ms := [OwnerWith("m", [SitsAt(env, k, First(net))], apps)];
            && s.members == ms == s.saved && s.peers == map[k := First(net)] && s.grants == Grants(ms)
               && s.nonces == map[]
            && s.pin == Some(OWNER) && s.generation == 1 && AllocSound(s)
            && s.alloc == Al.Allocate(Al.Fresh(net, V4(net, 1)), k).0
  {
    var s0 := Paired(net, boot);
    FreshSound(net, boot);
    FirstHost(s0.alloc, net, k);
    OnePush(env, s0, 1, k, apps, now);
    var a := Al.Allocate(s0.alloc, k).0;
    assert ClientKeys(s0.members) == {};
    assert ClientKeys(s0.members) - ClientKeys([OwnerWith("m", [SitsAt(env, k, First(net))], apps)]) == {};
    Al.ReleaseNone(a);
    OnePeer(env, s0.peers - {}, k, First(net), apps);
    StepAllocSound(env, s0, PushOf(env, 1, [Owner("m", [k])], apps, now));
  }

  /** k is a peer and nobody's client, and no liveness check at any later time removes it. */
  ghost predicate EndsStray(t: State, k: Al.Key, ip: Address) {
    AllocSound(t) && Stray(t, k, ip) && !PeersAgree(t) && forall later :: k in CheckLiveness(t, later).peers
  }

  /** The owner, with one client, which is a peer. */
  ghost predicate OneClient(s: State, k: Al.Key, ip: Address) {
    && AllocSound(s) && k != "" && k in s.alloc.bound && k in s.peers && s.peers[k] == ip
    && |s.members| == 1 && s.members[0].id == "m" && AllOwners(s.members)
  }

  lemma {:induction false} FirstPushOneClient(env: Env, net: Net24, boot: Time, k: Al.Key, apps: seq<App>, now: Time)
    requires Ideal(env) && k != "" && forall i :: 0 <= i < |apps| ==> ValidApp(env, apps[i])
    ensures OneClient(Step(env, Paired(net, boot), PushOf(env, 1, [Owner("m", [k])], apps, now)), k, First(net))
  {
    FirstPush(env, net, boot, k, apps, now);
    FirstHost(Al.Fresh(net, V4(net, 1)), net, k);
  }

  /** The owner's only client is a peer; it provisions again and AddPeer fails. The client's record and
      address are gone, the peer is not, and no liveness check removes it. */
  lemma {:induction false} StrayRun(env: Env, net: Net24, boot: Time, now: Time)
    requires Ideal(env)
    ensures EndsStray(Run(env, Paired(net, boot), StrayEvents(env, now)), "k", First(net))
  {
    FirstPushOneClient(env, net, boot, "k", [], now);
    StrayAfterPush(env, Paired(net, boot), "k", First(net), StrayEvents(env, now), now);
  }

  lemma {:induction false} StrayAfterPush(env: Env, s: State, k: Al.Key, ip: Address, evs: seq<Event>, now: Time)
    requires Ideal(env) && |evs| == 3 && evs[1] == Challenge("m", k, now) && evs[2] == Request("m", k, now, false)
    requires OneClient(Step(env, s, evs[0]), k, ip)
    ensures EndsStray(Run(env, s, evs), k, ip)
  {
    AskedAndFailed(env, Step(env, s, evs[0]), k, ip, now);
    var t := Step(env, Step(env, Step(env, s, evs[0]), evs[1]), evs[2]);
    StrayShows(t, k, ip);
    RunOfThree(env, s, evs);
  }

  lemma {:induction false} StrayShows(t: State, k: Al.Key, ip: Address)
    requires Stray(t, k, ip)
    ensures !PeersAgree(t) && forall later :: k in CheckLiveness(t, later).peers
  {
  }

  /** A challenge, then the failing provision. */
  lemma {:induction false} AskedAndFailed(env: Env, s: State, k: Al.Key, ip: Address, now: Time)
    requires Ideal(env) && OneClient(s, k, ip)
    ensures var t := Step(env, Step(env, s, Challenge("m", k, now)), Request("m", k, now, false));
            AllocSound(t) && Stray(t, k, ip) && t.grants == s.grants
  {
    Challenged(env, s, "m", k, now);
    var u := Step(env, s, Challenge("m", k, now));
    FailedAgain(env, u, k, now);
    StepAllocSound(env, u, Request("m", k, now, false));
  }

  /** Re-provisioning the only client of the only member, with AddPeer failing. */
  lemma {:induction false} FailedAgain(env: Env, s: State, k: Al.Key, now: Time)
    requires Ideal(env) && k != "" && k in s.alloc.bound && k in s.peers
    requires |s.members| == 1 && s.members[0].id == "m" && AllOwners(s.members)
    requires "c" in s.nonces && s.nonces["c"] == N.Entry("nonce", "m", k, now)
    ensures var e := Request("m", k, now, false);
            var t := Step(env, s, e);
            Stray(t, k, s.peers[k]) && t.grants == s.grants && LeavesPeer(env, s, e)
  {
    Targeted(env, s, "m", k, now, false);
    var e := Request("m", k, now, false);
    ProvisionStep(env, s, e);
    assert FirstMember(s.members, "m") == 0;
    assert !HeldByNamesake(s.members, "m", k);
    RollbackLeavesStray(env, s, "m", k);
  }

  // ---- a key left with a namesake ----

  function NamesakeEvents(env: Env, now: Time): seq<Event> {
    [PushOf(env, 1, [Owner("m", ["k"]), Owner("m", ["k"])], [], now), Challenge("m", "k", now),
     Request("m", "k", now, false)]
  }

  /** Agreement up to the last event, which is a rollback onto a namesake, and no agreement after it. */
  ghost predicate EndsApart(env: Env, s: State, evs: seq<Event>) {
    && |evs| > 0 && Agreement(env, Run(env, s, evs[..|evs| - 1]))
    && LeavesNamesake(env, Run(env, s, evs[..|evs| - 1]), evs[|evs| - 1]) && !Agreement(env, Run(env, s, evs))
  }

  /** Two owner entries of one id list one key; it provisions again and AddPeer fails. Up to then every
      client is at its allocator address; now the second entry's is at a released one. */
  lemma {:induction false} NamesakeRun(env: Env, net: Net24, boot: Time, now: Time)
    requires Ideal(env)
    ensures EndsApart(env, Paired(net, boot), NamesakeEvents(env, now))
  {
    FirstPushTwice(env, net, boot, now);
    NamesakeAfterPush(env, Paired(net, boot), NamesakeEvents(env, now), now);
  }

  lemma {:induction false} NamesakeAfterPush(env: Env, s: State, evs: seq<Event>, now: Time)
    requires Ideal(env) && |evs| == 3 && evs[1] == Challenge("m", "k", now) && evs[2] == Request("m", "k", now, false)
    requires var u := Step(env, s, evs[0]);
             && Agreement(env, u) && AllOwners(u.members) && |u.members| == 2
                && u.members[0].id == "m" == u.members[1].id
             && HasKey(u.members[0], "k") && HasKey(u.members[1], "k")
    ensures EndsApart(env, s, evs)
  {
    NamesakeLeft(env, Step(env, s, evs[0]), now);
    RunOfTwo(env, s, evs);
    RunOfThree(env, s, evs);
  }

  lemma {:induction false} FirstPushTwice(env: Env, net: Net24, boot: Time, now: Time)
    requires Ideal(env)
    ensures var s := Step(env, Paired(net, boot), PushOf(env, 1, [Owner("m", ["k"]), Owner("m", ["k"])], [], now));
            var m := OwnerWith("m", [SitsAt(env, "k", First(net))], []);
            s.members == [m, m] && Agreement(env, s)
  {
    var s0 := Paired(net, boot);
    FreshSound(net, boot);
    FirstHost(s0.alloc, net, "k");
    TwicePush(env, s0, 1, "k", now);
    PushKeepsAgreement(env, s0, OwnerPush(env, 1, [Owner("m", ["k"]), Owner("m", ["k"])], []), now, now, AllInstall());
  }

  lemma {:induction false} NamesakeLeft(env: Env, s: State, now: Time)
    requires Ideal(env) && Agreement(env, s) && AllOwners(s.members)
    requires |s.members| == 2 && s.members[0].id == "m" == s.members[1].id && HasKey(s.members[0], "k")
             && HasKey(s.members[1], "k")
    ensures var u, e := Step(env, s, Challenge("m", "k", now)), Request("m", "k", now, false);
            Agreement(env, u) && LeavesNamesake(env, u, e) && !Agreement(env, Step(env, u, e))
  {
    Challenged(env, s, "m", "k", now);
    var u, e := Step(env, s, Challenge("m", "k", now)), Request("m", "k", now, false);
    Targeted(env, u, "m", "k", now, false);
    assert FirstMember(u.members, "m") == 0;
    assert HeldByNamesake(u.members, "m", "k");
    var j :| 0 <= j < |s.members[0].clients| && s.members[0].clients[j].key == "k";
    assert AllAgree(env.server6, u.alloc, u.members[0].clients);
    assert Agrees(env.server6, u.alloc, u.members[0].clients[j]);
    StepAgreementIff(env, u, e);
  }

  // ---- grants that are not the ACL's ----

  const WEB := App("a", "web", "", "port", 80, "tcp")

  /** A new client is provisioned after the push. */
  function NewClientEvents(env: Env, now: Time): seq<Event> {
    [PushOf(env, 1, [Owner("m", [])], [WEB], now), Challenge("m", "k", now), Request("m", "k", now, true)]
  }

  /** A pushed client provisions again and AddPeer fails. */
  function LostClientEvents(env: Env, now: Time): seq<Event> {
    [PushOf(env, 1, [Owner("m", ["k"])], [WEB], now), Challenge("m", "k", now), Request("m", "k", now, false)]
  }

  /** The installed grants are the ACL's up to the last event, a provision that changes the ports open to
      its key, and are not after it. */
  ghost predicate EndsDrifted(env: Env, s: State, evs: seq<Event>) {
    && |evs| > 0 && Current(Run(env, s, evs[..|evs| - 1]))
    && Drifts(env, Run(env, s, evs[..|evs| - 1]), evs[|evs| - 1]) && !Current(Run(env, s, evs))
  }

  /** The owner, with an app on port 80 and either no client yet or one at the first address. */
  ghost predicate Serves(env: Env, s: State, k: Al.Key, listed: bool) {
    && Agreement(env, s) && Current(s) && Al.Allocate(s.alloc, k).1.Some? && AllOwners(s.members)
    && |s.members| == 1 && s.members[0].id == "m" && s.members[0].IsActive() && s.members[0].apps == [WEB]
    && (HasKey(s.members[0], k) <==> listed)
  }

  lemma {:induction false} ServesNone(env: Env, net: Net24, boot: Time, now: Time)
    requires Ideal(env)
    ensures Serves(env, Step(env, Paired(net, boot), PushOf(env, 1, [Owner("m", [])], [WEB], now)), "k", false)
  {
    var s := Paired(net, boot);
    FreshSound(net, boot);
    NonePush(env, s, 1, [WEB], now);
    var p := OwnerPush(env, 1, [Owner("m", [])], [WEB]);
    PushKeepsAgreement(env, s, p, now, now, AllInstall());
    PushCurrent(env, s, p, now, now, AllInstall());
    assert ClientKeys(s.members) - ClientKeys([OwnerWith("m", [], [WEB])]) == {};
    Al.ReleaseNone(s.alloc);
    FirstHost(s.alloc, net, "k");
  }

  lemma {:induction false} ServesOne(env: Env, net: Net24, boot: Time, now: Time)
    requires Ideal(env)
    ensures Serves(env, Step(env, Paired(net, boot), PushOf(env, 1, [Owner("m", ["k"])], [WEB], now)), "k", true)
  {
    var s := Paired(net, boot);
    FreshSound(net, boot);
    FirstPush(env, net, boot, "k", [WEB], now);
    var p := OwnerPush(env, 1, [Owner("m", ["k"])], [WEB]);
    PushKeepsAgreement(env, s, p, now, now, AllInstall());
    OnePush(env, s, 1, "k", [WEB], now);
    PushCurrent(env, s, p, now, now, AllInstall());
    FirstHost(s.alloc, net, "k");
    assert HasKey(OwnerWith("m", [SitsAt(env, "k", First(net))], [WEB]), "k");
  }

  lemma {:induction false} DriftsOnRequest(env: Env, s: State, k: Al.Key, added: bool, now: Time)
    requires Ideal(env) && k != "" && Serves(env, s, k, !added)
    ensures var u, e := Step(env, s, Challenge("m", k, now)), Request("m", k, now, added);
            Current(u) && Drifts(env, u, e) && !Current(Step(env, u, e))
  {
    Challenged(env, s, "m", k, now);
    var u, e := Step(env, s, Challenge("m", k, now)), Request("m", k, now, added);
    Targeted(env, u, "m", k, now, added);
    ReachesElsewhere(s.members, k, added);
    CurrentIff(s, u);
    StepGrantsIff(env, u, e);
  }

  lemma {:induction false} ReachesElsewhere(ms: seq<Member>, k: Al.Key, added: bool)
    requires |ms| == 1 && ms[0].id == "m" && ms[0].IsActive() && ms[0].apps == [WEB] && (HasKey(ms[0], k) <==> !added)
    ensures ReachChanges(ms, "m", k, added)
  {
    assert FirstMember(ms, "m") == 0;
    assert Opens(ms[0].apps[0], Tcp, 80);
    assert Permits(ms[0], Tcp, 80);
    assert KeyPermitted(ms, k, Tcp, 80) == !added;
    assert WillPermit(ms, "m", k, added, Tcp, 80) == added;
  }

  lemma {:induction false} DriftAfterPush(env: Env, s: State, k: Al.Key, added: bool, evs: seq<Event>, now: Time)
    requires Ideal(env) && k != "" && |evs| == 3 && evs[1] == Challenge("m", k, now)
             && evs[2] == Request("m", k, now, added)
    requires Serves(env, Step(env, s, evs[0]), k, !added)
    ensures EndsDrifted(env, s, evs)
  {
    DriftsOnRequest(env, Step(env, s, evs[0]), k, added, now);
    RunOfTwo(env, s, evs);
    RunOfThree(env, s, evs);
  }

  /** Both ways: a client provisioned since the push has no grant, and the grant of one lost since the
      push is still installed on an address that is free again. */
  lemma {:induction false} DriftRuns(env: Env, net: Net24, boot: Time, now: Time)
    requires Ideal(env)
    ensures EndsDrifted(env, Paired(net, boot), NewClientEvents(env, now))
    ensures EndsDrifted(env, Paired(net, boot), LostClientEvents(env, now))
  {
    ServesNone(env, net, boot, now);
    ServesOne(env, net, boot, now);
    DriftAfterPush(env, Paired(net, boot), "k", true, NewClientEvents(env, now), now);
    DriftAfterPush(env, Paired(net, boot), "k", false, LostClientEvents(env, now), now);
  }

  // ---- a suspended member that provisions ----

  /** The owner is suspended and provisions; the next push lists the new client. */
  function SuspendedEvents(env: Env, now: Time): seq<Event> {
    [PushOf(env, 1, [Owner("m", [], OWNER, true)], [], now), Challenge("m", "k", now), Request("m", "k", now, true),
     PushOf(env, 2, [Owner("m", ["k"], OWNER, true)], [], now)]
  }

  /** k becomes a peer that no push would install, and the next push removes it. */
  ghost predicate EndsUnwanted(env: Env, s: State, evs: seq<Event>, k: Al.Key) {
    && |evs| == 4 && k !in Run(env, s, evs[..2]).peers
    && k in Run(env, s, evs[..3]).peers && !Wanted(Run(env, s, evs[..3]).members, k)
    && k !in Run(env, s, evs).peers
  }

  lemma {:induction false} SuspendedRun(env: Env, net: Net24, boot: Time, now: Time)
    requires Ideal(env)
    ensures EndsUnwanted(env, Paired(net, boot), SuspendedEvents(env, now), "k")
  {
    SuspendedFirst(env, net, boot, now);
    SuspendedAfter(env, Paired(net, boot), SuspendedEvents(env, now), "k", now);
  }

  /** A paired agent whose only member is the suspended owner, without clients or peers. */
  ghost predicate OnlySuspended(s: State, k: Al.Key) {
    && AllocSound(s) && s.pin == Some(OWNER) && s.generation <= 2 && k != "" && k !in s.peers
    && s.members == [OwnerWith("m", [], [], "suspended")] && Al.Allocate(s.alloc, k).1.Some?
  }

  lemma {:induction false} SuspendedFirst(env: Env, net: Net24, boot: Time, now: Time)
    requires Ideal(env)
    ensures OnlySuspended(Step(env, Paired(net, boot), PushOf(env, 1, [Owner("m", [], OWNER, true)], [], now)), "k")
  {
    var s := Paired(net, boot);
    FreshSound(net, boot);
    NonePush(env, s, 1, [], now, true);
    StepAllocSound(env, s, PushOf(env, 1, [Owner("m", [], OWNER, true)], [], now));
    assert ClientKeys(s.members) - ClientKeys([OwnerWith("m", [], [], "suspended")]) == {};
    Al.ReleaseNone(s.alloc);
    FirstHost(s.alloc, net, "k");
    assert [OwnerWith("m", [], [], "suspended")][..0] == [];
  }

  /** It provisions k. */
  lemma {:induction false} SuspendedAsks(env: Env, s: State, k: Al.Key, now: Time)
    requires Ideal(env) && OnlySuspended(s, k)
    ensures var u := Step(env, s, Challenge("m", k, now));
            var t := Step(env, u, Request("m", k, now, true));
            && u.peers == s.peers && k in t.peers && !Wanted(t.members, k)
            && AllocSound(t) && t.pin == s.pin && t.generation == s.generation && k in t.alloc.bound
  {
    Challenged(env, s, "m", k, now);
    var u, e := Step(env, s, Challenge("m", k, now)), Request("m", k, now, true);
    Targeted(env, u, "m", k, now, true);
    ProvisionStep(env, u, e);
    assert FirstMember(u.members, "m") == 0;
    var g := ProvisionedWantedIff(env, u, "m", k);
    StepAllocSound(env, u, e);
    Al.AllocateLowestFree(u.alloc, k);
  }

  lemma {:induction false} SuspendedPush(env: Env, s: State, generation: int, k: Al.Key, now: Time)
    requires Ideal(env) && AllocSound(s) && s.pin == Some(OWNER) && generation >= s.generation && k != ""
             && k in s.alloc.bound
    ensures k !in Step(env, s, PushOf(env, generation, [Owner("m", [k], OWNER, true)], [], now)).peers
  {
    OnePush(env, s, generation, k, [], now, true);
    var m := OwnerWith("m", [SitsAt(env, k, s.alloc.bound[k])], [], "suspended");
    assert [m][..0] == [] && m.clients[0].key == k;
  }

  lemma {:induction false} SuspendedAfter(env: Env, s: State, evs: seq<Event>, k: Al.Key, now: Time)
    requires Ideal(env) && |evs| == 4 && evs[1] == Challenge("m", k, now) && evs[2] == Request("m", k, now, true)
    requires evs[3] == PushOf(env, 2, [Owner("m", [k], OWNER, true)], [], now) && OnlySuspended(Step(env, s, evs[0]), k)
    ensures EndsUnwanted(env, s, evs, k)
  {
    SuspendedAsks(env, Step(env, s, evs[0]), k, now);
    RunOfTwo(env, s, evs);
    RunStep(env, s, evs, 2);
    SuspendedPush(env, Run(env, s, evs[..3]), 2, k, now);
    RunStep(env, s, evs, 3);
    assert evs[..4] == evs;
  }

  // ---- a refused push that leaves a binding ----

  /** An entry that claims to be an owner's under another key than the pinned one, with a client. */
  function ImpostorPush(env: Env): Push {
    OwnerPush(env, 1, [Owner("m", ["k"], "other-key")], [])
  }

  /** The push is refused, by the pin check, and its client has an address. */
  lemma {:induction false} RefusedRun(env: Env, net: Net24, boot: Time, now: Time)
    requires Ideal(env)
    ensures var s := Paired(net, boot);
            var (t, verdict) := HandlePush(env, s, ImpostorPush(env), now, now, AllInstall());
            verdict == Refused && "k" !in s.alloc.bound && "k" in t.alloc.bound
  {
    var s, o := Paired(net, boot), Owner("m", ["k"], "other-key");
    FreshSound(net, boot);
    FirstHost(s.alloc, net, "k");
    PushAssigned(env, s, ImpostorPush(env), now, [], [o]);
    AssignOneMember(s.alloc, o, "k", []);
    var a := AssignMembers(s.alloc, map[], OwnerMembers([o], []));
    var ms := DeriveV6(env.server6, a.done);
    assert ms[0].IsAdmin() && ms[0].identityKey == "other-key";
    assert !PinOk(s.pin, ms);
  }
}
