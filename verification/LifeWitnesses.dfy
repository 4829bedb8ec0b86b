/** Lives of an agent fresh from pairing in which each exception that takes a restart actually happens. */
module LifeWitnesses {
  import opened Base
  import opened Addresses
  import opened Wire
  import opened Acl
  import opened Signing
  import opened DeviceState
  import opened Addressing
  import opened Peering
  import opened Membership
  import opened ProvisionFacts
  import opened AgentRuns
  import opened SavedAcl
  import opened Scenarios
  import opened StrayPeers
  import opened Startup
  import opened Restarts
  import opened Witnesses
  import Li = Lives
  import Al = Allocator
  import Pv = Provisioning
  import Sa = StartupAgreement
  import Co = Confinement
  import Fm = FirewallManager
  import Fw = Firewall
  import Lg = LifeGrants

  // ---- a restart from a stale allocation file ----

  /** The allocator with one binding, of the first address; it is also what a file saved then loads as. */
  function OneBinding(net: Net24, k: Al.Key): Al.Alloc {
    Al.Allocate(Al.Fresh(net, V4(net, 1)), k).0
  }

  lemma {:induction false} OneBindingIs(net: Net24, k: Al.Key)
    ensures var b := OneBinding(net, k);
            && b.net == net && b.server == V4(net, 1) && b.bound == map[k := First(net)]
            && b.used == Al.Reserved(net, V4(net, 1)) + {First(net)}
            && Al.Valid(b) && Al.Canonical(b) && Al.Loaded(net, V4(net, 1), b.bound, b) && LoadedOn(b, b)
  {
    var b := OneBinding(net, k);
    FirstHost(Al.Fresh(net, V4(net, 1)), net, k);
    Al.FreshValid(net, V4(net, 1));
    Al.StepKeeps(Al.Fresh(net, V4(net, 1)), Al.DoAllocate(k));
    assert b.bound[k] in b.bound.Values && forall v :: v in b.bound.Values ==> v == First(net);
    assert b.bound.Values == {First(net)};
  }

  /** The owner paired, in agreement, with at most the client k, at the first address. */
  ghost predicate Holds1(env: Env, net: Net24, s: State, k: Al.Key) {
    && Trusted(env, OWNER, s) && Agreement(env, s) && s.pin == Some(OWNER) && s.saved == s.members
    && ClientKeys(s.members) == (if k == "" then {} else {k})
    && s.alloc == if k == "" then Al.Fresh(net, V4(net, 1)) else OneBinding(net, k)
  }

  lemma {:induction false} PushTrusted(env: Env, s: State, generation: int, os: seq<Owner>, now: Time)
    requires Trusted(env, OWNER, s) && Agreement(env, s)
    ensures var t := Step(env, s, PushOf(env, generation, os, [], now)); Trusted(env, OWNER, t) && Agreement(env, t)
  {
    StepKeepsTrust(env, OWNER, s, PushOf(env, generation, os, [], now));
    PushKeepsAgreement(env, s, OwnerPush(env, generation, os, []), now, now, AllInstall());
  }

  /** Pushing one client to an agent without any. */
  lemma {:induction false} PushIn(env: Env, net: Net24, s: State, generation: int, k: Al.Key, now: Time)
    requires Ideal(env) && Holds1(env, net, s, "") && generation >= s.generation && k != ""
    ensures var t := Step(env, s, PushOf(env, generation, [Owner("m", [k])], [], now));
            Holds1(env, net, t, k) && t.generation == generation
              && t.members == [OwnerWith("m", [SitsAt(env, k, First(net))], [])]
  {
    FirstHost(s.alloc, net, k);
    OnePush(env, s, generation, k, [], now);
    PushTrusted(env, s, generation, [Owner("m", [k])], now);
    OneKey(env, k, First(net), []);
    assert ClientKeys(s.members) - {k} == {};
    Al.ReleaseNone(OneBinding(net, k));
  }

  /** Pushing it away again. */
  lemma {:induction false} PushOut(env: Env, net: Net24, s: State, generation: int, k: Al.Key, now: Time)
    requires Ideal(env) && Holds1(env, net, s, k) && k != "" && generation >= s.generation
    ensures var t := Step(env, s, PushOf(env, generation, [Owner("m", [])], [], now));
            Holds1(env, net, t, "") && t.generation == generation
  {
    NonePush(env, s, generation, [], now);
    PushTrusted(env, s, generation, [Owner("m", [])], now);
    OneBindingIs(net, k);
    assert ClientKeys([OwnerWith("m", [], [])]) == {};
    ReleaseOnly(net, k);
  }

  lemma {:induction false} ReleaseOnly(net: Net24, k: Al.Key)
    ensures Al.ReleaseAll(OneBinding(net, k), {k} - {}) == Al.Fresh(net, V4(net, 1))
  {
    var b := OneBinding(net, k);
    OneBindingIs(net, k);
    Al.ReleaseNone(b);
    Al.ReleaseAllOne(b, {}, k);
    assert {} + {k} == {k} - {};
    assert b.bound - {k} == map[];
    assert First(net) !in Al.Reserved(net, V4(net, 1));
    assert b.used - {First(net)} == Al.Reserved(net, V4(net, 1));
  }

  /** A clean restart changes nothing of that. */
  lemma {:induction false} CleanRestart(env: Env, net: Net24, s: State, k: Al.Key, now: Time)
    requires Holds1(env, net, s, k) && k != ""
    ensures var t := Restart(env, s, OneBinding(net, k), now, AllInstall());
            Holds1(env, net, t, k) && t.generation == s.generation
  {
    var b := OneBinding(net, k);
    OneBindingIs(net, k);
    CleanFile(env, s.alloc, b, s.members);
    SavedIsBacked(env, s);
    RestartTrusted(env, OWNER, s, b, now, AllInstall());
    RestartAgreementIff(env, OWNER, s, b, now, AllInstall());
    RestartMends(env, OWNER, s, b, now, AllInstall());
    RestartedAlloc(env, OWNER, s, s.alloc, b, now, AllInstall());
  }

  // ---- a restart from a stale allocation file ----

  /** Push a client; shut down cleanly and start again; push it away; push another one, which gets the
      address; and at the end start again after a crash, from the file of the clean shutdown. */
  ghost predicate StartsStale(env: Env, net: Net24, ms: seq<Li.Moment>, now: Time) {
    && |ms| >= 5
    && ms[0] == Li.Happens(PushOf(env, 1, [Owner("m", ["old"])], [], now))
    && ms[1] == Li.Reboots(OneBinding(net, "old"), now, AllInstall()) == ms[|ms| - 1]
    && ms[2] == Li.Happens(PushOf(env, 2, [Owner("m", [])], [], now))
    && ms[3] == Li.Happens(PushOf(env, 3, [Owner("m", ["new"])], [], now))
  }

  function StaleFileMoments(env: Env, net: Net24, now: Time): seq<Li.Moment> {
    [Li.Happens(PushOf(env, 1, [Owner("m", ["old"])], [], now)),
     Li.Reboots(OneBinding(net, "old"), now, AllInstall()),
     Li.Happens(PushOf(env, 2, [Owner("m", [])], [], now)),
     Li.Happens(PushOf(env, 3, [Owner("m", ["new"])], [], now)),
     Li.Reboots(OneBinding(net, "old"), now, AllInstall())]
  }

  /** The last restart, like the first, loads the file saved at the clean shutdown; clients and allocator
      agree before it, and not after. */
  ghost predicate EndsStale(env: Env, net: Net24, s: State, ms: seq<Li.Moment>) {
    var n := |ms| - 1;
    && n >= 4 && ms[1].Reboots? && ms[n] == ms[1]
    && Al.Loaded(net, V4(net, 1), Li.Life(env, s, ms[..1]).alloc.bound, ms[1].b)
    && LoadedOn(Li.Life(env, s, ms[..n]).alloc, ms[n].b)
    && Agreement(env, Li.Life(env, s, ms[..n])) && Li.Breaks(env, Li.Life(env, s, ms[..n]), ms[n])
    && !Agreement(env, Li.Life(env, s, ms))
  }

  lemma {:induction false} PairedHolds(env: Env, net: Net24, boot: Time)
    requires Ideal(env)
    ensures Holds1(env, net, Paired(net, boot), "")
  {
    PairedIsJustPaired(net, boot);
    PairedReady(env, OWNER, Paired(net, boot), OWNER);
  }

  lemma {:induction false} StaleFileLife(env: Env, net: Net24, boot: Time, now: Time)
    requires Ideal(env)
    ensures EndsStale(env, net, Paired(net, boot), StaleFileMoments(env, net, now))
  {
    PairedHolds(env, net, boot);
    StaleAfter(env, net, Paired(net, boot), StaleFileMoments(env, net, now), now);
  }

  lemma {:induction false} StaleFirst(env: Env, net: Net24, s: State, ms: seq<Li.Moment>, now: Time)
    requires Ideal(env) && Holds1(env, net, s, "") && s.generation <= 1 && StartsStale(env, net, ms, now)
    ensures Holds1(env, net, Li.Life(env, s, ms[..1]), "old")
    ensures Holds1(env, net, Li.Life(env, s, ms[..2]), "old") && Li.Life(env, s, ms[..2]).generation == 1
  {
    assert ms[..0] == [];
    Li.LifeStep(env, s, ms, 0);
    PushIn(env, net, s, 1, "old", now);
    Li.LifeStep(env, s, ms, 1);
    CleanRestart(env, net, Li.Life(env, s, ms[..1]), "old", now);
  }

  lemma {:induction false} StaleThen(env: Env, net: Net24, s: State, ms: seq<Li.Moment>, now: Time)
    requires Ideal(env) && StartsStale(env, net, ms, now)
    requires Holds1(env, net, Li.Life(env, s, ms[..2]), "old") && Li.Life(env, s, ms[..2]).generation == 1
    ensures NewOnly(env, net, Li.Life(env, s, ms[..4]))
  {
    Li.LifeStep(env, s, ms, 2);
    PushOut(env, net, Li.Life(env, s, ms[..2]), 2, "old", now);
    Li.LifeStep(env, s, ms, 3);
    PushIn(env, net, Li.Life(env, s, ms[..3]), 3, "new", now);
  }

  /** The owner has just the client "new", at the first address. */
  ghost predicate NewOnly(env: Env, net: Net24, s: State) {
    Holds1(env, net, s, "new") && s.members == [OwnerWith("m", [SitsAt(env, "new", First(net))], [])]
  }

  lemma {:induction false} StaleAfter(env: Env, net: Net24, s: State, ms: seq<Li.Moment>, now: Time)
    requires Ideal(env) && Holds1(env, net, s, "") && s.generation <= 1 && StartsStale(env, net, ms, now) && |ms| == 5
    ensures EndsStale(env, net, s, ms)
  {
    StaleFirst(env, net, s, ms, now);
    StaleThen(env, net, s, ms, now);
    OneBindingIs(net, "old");
    var u := Li.Life(env, s, ms[..4]);
    SavedIsBacked(env, u);
    StaleBreaks(env, net, u, ms[4]);
    StaleEnd(env, net, s, ms);
  }

  lemma {:induction false} StaleEnd(env: Env, net: Net24, s: State, ms: seq<Li.Moment>)
    requires |ms| >= 5 && ms[1].Reboots? && ms[|ms| - 1] == ms[1]
    requires Al.Loaded(net, V4(net, 1), Li.Life(env, s, ms[..1]).alloc.bound, ms[1].b)
    requires var u, m := Li.Life(env, s, ms[..|ms| - 1]), ms[|ms| - 1];
             LoadedOn(u.alloc, m.b) && Agreement(env, u) && Li.Breaks(env, u, m) && !Agreement(env, Li.Next(env, u, m))
    ensures EndsStale(env, net, s, ms)
  {
    assert ms[..|ms|] == ms;
    Li.LifeStep(env, s, ms, |ms| - 1);
  }

  /** An agent whose ACL file has "new" at the first address, which the allocation file gives to "old". */
  lemma {:induction false} StaleBreaks(env: Env, net: Net24, s: State, m: Li.Moment)
    requires Trusted(env, OWNER, s) && Agreement(env, s) && Backed(env, s) && s.alloc.net == net
             && s.alloc.server == V4(net, 1)
    requires s.saved == [OwnerWith("m", [SitsAt(env, "new", First(net))], [])]
    requires m.Reboots? && m.b == OneBinding(net, "old")
    ensures LoadedOn(s.alloc, m.b) && Li.Breaks(env, s, m) && !Agreement(env, Li.Next(env, s, m))
  {
    OneBindingIs(net, "old");
    var c := s.saved[0].clients[0];
    assert m.b.bound["old"] == c.ip4 && c.key == "new";
    assert !NotStolen(m.b, c);
    assert !NoneStolen(m.b, s.saved[0].clients);
    Li.NextAgreementIff(env, OWNER, s, m);
  }

  // ---- a rollback that was not saved ----

  /** The owner, with the client k, all of it saved. */
  ghost predicate SavedClient(env: Env, s: State, k: Al.Key) {
    && Trusted(env, OWNER, s) && Agreement(env, s) && s.saved == s.members && AllOwners(s.members)
    && |s.members| == 1 && s.members[0].id == "m" && k != "" && k in s.alloc.bound && ClientKeys(s.members) == {k}
  }

  /** The client is nobody's any more, except in the file. */
  ghost predicate GivenUp(env: Env, s: State, t: State) {
    && Trusted(env, OWNER, t) && Agreement(env, t) && Backed(env, t)
    && t.saved == s.saved && ClientKeys(t.members) == {} && t.peers == s.peers
    && t.alloc.net == s.alloc.net && t.alloc.server == s.alloc.server
  }

  /** It provisions again and AddPeer fails. */
  lemma {:induction false} Unsaved(env: Env, s: State, k: Al.Key, now: Time)
    requires Ideal(env) && SavedClient(env, s, k)
    ensures GivenUp(env, s, Step(env, Step(env, s, Challenge("m", k, now)), Request("m", k, now, false)))
  {
    var u, e := Step(env, s, Challenge("m", k, now)), Request("m", k, now, false);
    Challenged(env, s, "m", k, now);
    StepKeepsTrust(env, OWNER, s, Challenge("m", k, now));
    Targeted(env, u, "m", k, now, false);
    UnsavedAfter(env, u, k, e);
  }

  lemma {:induction false} UnsavedAfter(env: Env, u: State, k: Al.Key, e: Event)
    requires Ideal(env) && SavedClient(env, u, k) && e.ProvisionArrives? && !e.added
    requires Target(env, u, e.provision, e.now) == Some(("m", k))
    ensures GivenUp(env, u, Step(env, u, e))
  {
    assert FirstMember(u.members, "m") == 0;
    assert !HeldByNamesake(u.members, "m", k);
    SavedIsBacked(env, u);
    StepKeepsTrust(env, OWNER, u, e);
    StepAgreementIff(env, u, e);
    StepBacked(env, u, e);
    ProvisionStep(env, u, e);
    RollbackAddsNone(env, u, "m", k);
    RollbackClears(u.members, "m", Pv.Record(env, k, Al.Allocate(u.alloc, k).1.value));
  }

  lemma {:induction false} NoClientStolen(env: Env, a: Al.Alloc, b: Al.Alloc, ms: seq<Member>)
    requires MembersAgree(env.server6, a, ms) && ClientKeys(ms) == {} && Al.Valid(b) && Al.Canonical(b)
    ensures NobodyStolen(b, ms)
  {
    forall i | 0 <= i < |ms|
      ensures NoneStolen(b, ms[i].clients)
    {
      forall j | 0 <= j < |ms[i].clients|
        ensures NotStolen(b, ms[i].clients[j])
      {
        assert AllAgree(env.server6, a, ms[i].clients);
        assert Agrees(env.server6, a, ms[i].clients[j]);
        assert ms[i].clients[j].key !in ClientKeys(ms);
        assert forall k :: k in b.bound ==> Al.Holdable(b, b.bound[k]);
      }
    }
  }

  function StrayBackMoments(env: Env, net: Net24, now: Time): seq<Li.Moment> {
    [Li.Happens(PushOf(env, 1, [Owner("m", ["k"])], [], now)), Li.Happens(Challenge("m", "k", now)),
     Li.Happens(Request("m", "k", now, false)), Li.Reboots(Al.Fresh(net, V4(net, 1)), now, AllInstall())]
  }

  /** k is stray before the restart and a client with a peer after it. */
  ghost predicate EndsBack(env: Env, s: State, ms: seq<Li.Moment>, k: Al.Key, ip: Address) {
    && |ms| == 4 && Stray(Li.Life(env, s, ms[..3]), k, ip)
    && ms[3].Reboots? && LoadedOn(Li.Life(env, s, ms[..3]).alloc, ms[3].b)
    && k in Li.Life(env, s, ms).peers && k in ClientKeys(Li.Life(env, s, ms).members)
  }

  /** The owner's only client provisions again and AddPeer fails; after a restart it is back. */
  lemma {:induction false} StrayBackLife(env: Env, net: Net24, boot: Time, now: Time)
    requires Ideal(env)
    ensures EndsBack(env, Paired(net, boot), StrayBackMoments(env, net, now), "k", First(net))
  {
    FirstPushSaved(env, net, boot, "k", now);
    StrayBackAfter(env, net, Paired(net, boot), StrayBackMoments(env, net, now), "k", now);
  }

  /** The client k, saved and installed. */
  ghost predicate Serving(env: Env, net: Net24, s: State, k: Al.Key, ip: Address) {
    && SavedClient(env, s, k) && k in s.peers && s.peers[k] == ip && k in ActiveKeys(s.saved)
    && s.alloc.net == net && s.alloc.server == V4(net, 1)
  }

  lemma {:induction false} FirstPushSaved(env: Env, net: Net24, boot: Time, k: Al.Key, now: Time)
    requires Ideal(env) && k != ""
    ensures Serving(env, net, Step(env, Paired(net, boot), PushOf(env, 1, [Owner("m", [k])], [], now)), k, First(net))
  {
    PairedHolds(env, net, boot);
    FirstPush(env, net, boot, k, [], now);
    PushTrusted(env, Paired(net, boot), 1, [Owner("m", [k])], now);
    OneKey(env, k, First(net), []);
    OneBindingIs(net, k);
  }

  lemma {:induction false} StrayBackAfter(env: Env, net: Net24, s: State, ms: seq<Li.Moment>, k: Al.Key, now: Time)
    requires Ideal(env) && |ms| == 4 && ms[0].Happens?
    requires ms[1] == Li.Happens(Challenge("m", k, now)) && ms[2] == Li.Happens(Request("m", k, now, false))
    requires ms[3] == Li.Reboots(Al.Fresh(net, V4(net, 1)), now, AllInstall())
    requires Serving(env, net, Step(env, s, ms[0].e), k, First(net))
    ensures EndsBack(env, s, ms, k, First(net))
  {
    var u := Step(env, s, ms[0].e);
    Unsaved(env, u, k, now);
    ThreeHappen(env, s, ms);
    StrayBackEnd(env, net, s, ms, k, u, now);
  }

  lemma {:induction false} StrayBackEnd(env: Env, net: Net24, s: State, ms: seq<Li.Moment>, k: Al.Key, u: State,
                                        now: Time)
    requires |ms| == 4 && ms[3] == Li.Reboots(Al.Fresh(net, V4(net, 1)), now, AllInstall())
    requires Serving(env, net, u, k, First(net)) && GivenUp(env, u, Li.Life(env, s, ms[..3]))
    ensures EndsBack(env, s, ms, k, First(net))
  {
    assert ms[..4] == ms;
    Li.LifeStep(env, s, ms, 3);
    Al.FreshValid(net, V4(net, 1));
    BroughtBack(env, Li.Life(env, s, ms[..3]), ms[3].b, now, k);
  }

  lemma {:induction false} ThreeHappen(env: Env, s: State, ms: seq<Li.Moment>)
    requires |ms| >= 3 && ms[0].Happens? && ms[1].Happens? && ms[2].Happens?
    ensures Li.Life(env, s, ms[..3]) == Step(env, Step(env, Step(env, s, ms[0].e), ms[1].e), ms[2].e)
  {
    assert ms[..0] == [];
    Li.LifeStep(env, s, ms, 0);
    Li.LifeStep(env, s, ms, 1);
    Li.LifeStep(env, s, ms, 2);
  }

  lemma {:induction false} BroughtBack(env: Env, s: State, b: Al.Alloc, now: Time, k: Al.Key)
    requires Trusted(env, OWNER, s) && Backed(env, s) && LoadedOn(s.alloc, b) && b.bound == map[]
             && k in ActiveKeys(s.saved)
    ensures var t := Restart(env, s, b, now, AllInstall()); k in t.peers && k in ClientKeys(t.members)
  {
    RestartClearsStrayIff(env, OWNER, s, b, now, AllInstall(), k);
    RestartMends(env, OWNER, s, b, now, AllInstall());
    ActiveAreClients(s.saved);
  }

  function UnsavedMoments(env: Env, net: Net24, now: Time): seq<Li.Moment> {
    [Li.Happens(PushOf(env, 1, [Owner("m", ["old"])], [], now)),
     Li.Reboots(OneBinding(net, "old"), now, AllInstall()),
     Li.Happens(PushOf(env, 2, [Owner("m", [])], [], now)),
     Li.Happens(PushOf(env, 3, [Owner("m", ["new"])], [], now)),
     Li.Happens(Challenge("m", "new", now)),
     Li.Happens(Request("m", "new", now, false)),
     Li.Reboots(OneBinding(net, "old"), now, AllInstall())]
  }

  /** As in the life before, but the new client has been rolled back when the crash comes. The agent has no
      client then whose address could be given away; the ACL file still has one. */
  lemma {:induction false} UnsavedRollbackLife(env: Env, net: Net24, boot: Time, now: Time)
    requires Ideal(env)
    ensures var s, ms := Paired(net, boot), UnsavedMoments(env, net, now);
            EndsStale(env, net, s, ms) && NobodyStolen(ms[6].b, Li.Life(env, s, ms[..6]).members)
  {
    PairedHolds(env, net, boot);
    UnsavedEnd(env, net, Paired(net, boot), UnsavedMoments(env, net, now), now);
  }

  lemma {:induction false} UnsavedEnd(env: Env, net: Net24, s: State, ms: seq<Li.Moment>, now: Time)
    requires Ideal(env) && Holds1(env, net, s, "") && s.generation <= 1 && StartsStale(env, net, ms, now) && |ms| == 7
    requires ms[4] == Li.Happens(Challenge("m", "new", now)) && ms[5] == Li.Happens(Request("m", "new", now, false))
    ensures EndsStale(env, net, s, ms) && NobodyStolen(ms[6].b, Li.Life(env, s, ms[..6]).members)
  {
    StaleFirst(env, net, s, ms, now);
    StaleThen(env, net, s, ms, now);
    OneBindingIs(net, "old");
    OneBindingIs(net, "new");
    UnsavedThen(env, net, s, ms, now);
    var t := Li.Life(env, s, ms[..6]);
    NoClientStolen(env, t.alloc, ms[6].b, t.members);
    StaleBreaks(env, net, t, ms[6]);
    StaleEnd(env, net, s, ms);
  }

  lemma {:induction false} UnsavedThen(env: Env, net: Net24, s: State, ms: seq<Li.Moment>, now: Time)
    requires Ideal(env) && |ms| == 7 && NewOnly(env, net, Li.Life(env, s, ms[..4]))
    requires ms[4] == Li.Happens(Challenge("m", "new", now)) && ms[5] == Li.Happens(Request("m", "new", now, false))
    ensures GivenUp(env, Li.Life(env, s, ms[..4]), Li.Life(env, s, ms[..6]))
  {
    OneBindingIs(net, "new");
    Unsaved(env, Li.Life(env, s, ms[..4]), "new", now);
    Li.LifeStep(env, s, ms, 4);
    Li.LifeStep(env, s, ms, 5);
  }

  // ---- a client renumbered into its member's namesake ----

  /** Two owner entries of one id; the second has the client. */
  function TwoEntries(env: Env, net: Net24): seq<Member> {
    [OwnerWith("m", [], []), OwnerWith("m", [SitsAt(env, "k", First(net))], [])]
  }

  /** The client is bound and installed at an address of the new overlay. Its record still has the one of
      the old overlay, and the entry before it has been given a record as well. */
  ghost predicate Misfiled(net: Net24, there: Net24, t: State) {
    && "k" in t.alloc.bound && UnderPrefix(there, t.alloc.bound["k"])
    && "k" in t.peers && t.peers["k"] == t.alloc.bound["k"]
    && |t.members| == 2 && |t.members[1].clients| > 0 && t.members[1].clients[0].key == "k"
    && t.members[1].clients[0].ip4 == First(net) != t.alloc.bound["k"] && HasKey(t.members[0], "k")
  }

  /** A push of two entries with one id, and a restart on another overlay. */
  lemma {:induction false} RenumberedLife(env: Env, net: Net24, boot: Time, now: Time, env': Env, there: Net24)
    requires Ideal(env) && there != net
    ensures var s := Step(env, Paired(net, boot), PushOf(env, 1, [Owner("m", []), Owner("m", ["k"])], [], now));
            Misfiled(net, there, Restart(env', s, Al.Fresh(there, V4(there, 1)), now, AllInstall()))
  {
    FreshSound(net, boot);
    FirstHost(Paired(net, boot).alloc, net, "k");
    SplitPush(env, Paired(net, boot), 1, "k", now);
    var s := Step(env, Paired(net, boot), PushOf(env, 1, [Owner("m", []), Owner("m", ["k"])], [], now));
    RenumberedRestart(env, env', net, there, s, now);
  }

  lemma {:induction false} RenumberedRestart(env: Env, env': Env, net: Net24, there: Net24, s: State, now: Time)
    requires s.saved == TwoEntries(env, net) && there != net
    ensures Misfiled(net, there, Restart(env', s, Al.Fresh(there, V4(there, 1)), now, AllInstall()))
  {
    var ms, b := s.saved, Al.Fresh(there, V4(there, 1));
    CertifiedSurvive(env', s.log, ms);
    OthersOverlay(env, net, there);
    Renumbering(env, env', net, there);
    Sa.StartupSettles(env', b, ms, AllInstall());
    var r := ReconcilePeers(env', b, ms, map[], AllInstall());
    assert Pos(ms, 1, 0);
    assert Sa.Settled(env', b, ms, r, 1, 0);
    FirstOfTwo(env, net);
    assert !Sa.Leads(ms, 1);
    CopyIsListed(env', r, ms);
  }

  lemma {:induction false} FirstOfTwo(env: Env, net: Net24)
    ensures FirstMember(TwoEntries(env, net), "m") == 0
  {
  }

  lemma {:induction false} CopyIsListed(env: Env, r: Rebuild, ms: seq<Member>)
    requires Pos(ms, 1, 0) && ms[1].clients[0].key == "k" && FirstMember(ms, ms[1].id) == 0
    requires Sa.HasCopy(env, r.alloc, ms, r.members, 1, 0)
    ensures |r.members| > 0 && HasKey(r.members[0], "k")
  {
    var j :| 0 <= j < |r.members[0].clients| && Sa.CopyOf(env, r.alloc, ms, 0, r.members[0].clients[j], 1, 0);
    assert r.members[0].clients[j].key == "k";
  }

  /** The new overlay's allocator, which loads as empty, is compatible with the old overlay's records. */
  lemma {:induction false} OthersOverlay(env: Env, net: Net24, there: Net24)
    requires there != net
    ensures Compatible(Al.Fresh(there, V4(there, 1)), TwoEntries(env, net))
  {
    var b, ms := Al.Fresh(there, V4(there, 1)), TwoEntries(env, net);
    Al.FreshValid(there, V4(there, 1));
    assert ms[..1] == [ms[0]] && [ms[0]][..0] == [];
    assert Flat([ms[0]]) == [] && Flat(ms) == ms[1].clients;
    assert b.bound.Values == {};
  }

  lemma {:induction false} Renumbering(env: Env, env': Env, net: Net24, there: Net24)
    requires there != net
    ensures !ReconcilePeers(env', Al.Fresh(there, V4(there, 1)), TwoEntries(env, net), map[], AllInstall()).failed
  {
    var b, ms := Al.Fresh(there, V4(there, 1)), TwoEntries(env, net);
    assert ms[..1] == [ms[0]] && [ms[0]][..0] == [] && ms[1].clients[..0] == [];
    assert ms[..|ms| - 1] == [ms[0]] && ms[|ms| - 1] == ms[1];
    assert MarkMembers(b, [ms[0]]) == b;
    assert MarkMembers(b, ms) == MarkClients(b, ms[1].clients);
    assert MarkClients(b, ms[1].clients) == b;
    FirstHost(b, there, "k");
    var b0 := Rebuild(b, ms, map[], false);
    assert ReviveMembers(env', b0, [ms[0]], AllInstall()) == b0;
    assert !ReviveClients(env', b0, "m", ms[1].clients, 1, AllInstall()).failed;
  }

  // ---- a firewall that falls ----

  /** A push that changes the grants, whose rebuild fails; another with the same grants; a watchdog tick. */
  function FallenBeats(env: Env, now: Time): seq<Co.Beat> {
    [Co.Passes(Li.Happens(PushOf(env, 1, [Owner("m", ["k"])], [WEB], now)), false),
     Co.Passes(Li.Happens(PushOf(env, 2, [Owner("m", ["k"])], [WEB], now)), true),
     Co.Ticks(true)]
  }

  /** Confined at first, no chain after either push, confined again after the tick. */
  ghost predicate FallsAndRises(env: Env, ports: seq<int>, g: Co.Guarded, bs: seq<Co.Beat>) {
    && |bs| == 3 && Co.Watched(ports, g) && Co.Confined(ports, g.wall)
    && Co.Down(Co.After(env, ports, g, bs[..1]).wall) && Co.Down(Co.After(env, ports, g, bs[..2]).wall)
    && Co.Confined(ports, Co.After(env, ports, g, bs).wall)
  }

  lemma {:induction false} FallenLife(env: Env, ports: seq<int>, net: Net24, boot: Time, now: Time)
    requires Ideal(env)
    ensures FallsAndRises(env, ports, Co.Guarded(Paired(net, boot), Fm.Rebuilt(ports, [], true)), FallenBeats(env, now))
  {
    var s := Paired(net, boot);
    var e1 := PushOf(env, 1, [Owner("m", ["k"])], [WEB], now);
    var e2 := PushOf(env, 2, [Owner("m", ["k"])], [WEB], now);
    PairedGrantsNothing(net, boot);
    GrantsArrive(env, net, boot, now);
    GrantsStay(env, net, Step(env, s, e1), now);
    FallenAfter(env, ports, Co.Guarded(s, Fm.Rebuilt(ports, [], true)), FallenBeats(env, now), e1, e2);
  }

  lemma {:induction false} PairedGrantsNothing(net: Net24, boot: Time)
    ensures Paired(net, boot).grants == []
  {
    var ms := Paired(net, boot).members;
    assert ms[..0] == [];
  }

  lemma {:induction false} GrantsArrive(env: Env, net: Net24, boot: Time, now: Time)
    requires Ideal(env)
    ensures var s, e := Paired(net, boot), PushOf(env, 1, [Owner("m", ["k"])], [WEB], now);
            var t := Step(env, s, e);
            && Lg.Refreshes(env, s, Li.Happens(e)) && t.grants == Grants(t.members) != []
            && AllocSound(t) && t.pin == Some(OWNER) && t.generation == 1 && t.alloc == OneBinding(net, "k")
            && t.members == [OwnerWith("m", [SitsAt(env, "k", First(net))], [WEB])]
  {
    var s := Paired(net, boot);
    FirstPush(env, net, boot, "k", [WEB], now);
    FreshSound(net, boot);
    FirstHost(s.alloc, net, "k");
    OnePush(env, s, 1, "k", [WEB], now);
    OneGrant(OwnerWith("m", [SitsAt(env, "k", First(net))], [WEB]));
  }

  lemma {:induction false} OneGrant(m: Member)
    requires m.IsActive() && |m.clients| == 1 && m.clients[0].ip4 != NoAddress && m.apps == [WEB]
    ensures Grants([m]) != []
  {
    var p := Fw.Packet(m.clients[0].ip4, Fw.Tcp, 80, false);
    assert Fw.Opens(m.apps[0], Fw.Tcp, 80);
    assert Fw.Owns(m, Fw.IPv4, p.src) && Fw.Permits(m, Fw.Tcp, 80);
    assert [m][0] == m;
    Fw.GrantsMean([m], Fw.IPv4, p);
  }

  lemma {:induction false} GrantsStay(env: Env, net: Net24, s: State, now: Time)
    requires Ideal(env) && AllocSound(s) && s.pin == Some(OWNER) && s.generation == 1 && s.alloc == OneBinding(net, "k")
    requires s.members == [OwnerWith("m", [SitsAt(env, "k", First(net))], [WEB])] && s.grants == Grants(s.members)
    ensures Step(env, s, PushOf(env, 2, [Owner("m", ["k"])], [WEB], now)).grants == s.grants
  {
    OneBindingIs(net, "k");
    OnePush(env, s, 2, "k", [WEB], now);
  }

  lemma {:induction false} FallenAfter(env: Env, ports: seq<int>, g: Co.Guarded, bs: seq<Co.Beat>, e1: Event, e2: Event)
    requires Co.Watched(ports, g) && Co.Confined(ports, g.wall) && Lg.Refreshes(env, g.s, Li.Happens(e1))
    requires Step(env, g.s, e1).grants != g.s.grants
             && Step(env, Step(env, g.s, e1), e2).grants == Step(env, g.s, e1).grants
    requires bs == [Co.Passes(Li.Happens(e1), false), Co.Passes(Li.Happens(e2), true), Co.Ticks(true)]
    ensures FallsAndRises(env, ports, g, bs)
  {
    assert bs[..0] == [] && bs[..3] == bs;
    Co.AfterStep(env, ports, g, bs, 0);
    Co.AfterStep(env, ports, g, bs, 1);
    Co.AfterStep(env, ports, g, bs, 2);
    var h := Co.After(env, ports, g, bs[..1]);
    Co.SameGrantsDoNotMend(env, ports, h, e2, true);
    Co.TickMends(env, ports, Co.After(env, ports, g, bs[..2]));
  }
}
