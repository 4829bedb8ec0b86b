/** The agent as a state machine over everything that arrives, and what holds after every run of it.
    Handlers run one at a time; the liveness watch and the nonce reaper are steps of their own. */
module AgentRuns {
  import opened Base
  import opened Prefixes
  import opened Addresses
  import opened Allocator
  import opened Wire
  import opened Acl
  import opened Json
  import opened Signing
  import opened DeviceState
  import opened Addressing
  import opened Peering
  import opened Membership
  import opened Provisioning
  import opened ProvisionFacts
  import R = Reapply
  import L = Liveness
  import N = Nonces

  datatype Event =
    | PushArrives(push: Push, now: Time, finished: Time, addOk: AddOk)
    | ChallengeArrives(challenge: ChallengeReq, nonce: string, now: Time)
    | ProvisionArrives(provision: ProvisionReq, now: Time, added: bool)
    | AckArrives(generation: int, now: Time)
    | LivenessCheck(now: Time)
    | NonceReap(now: Time)
    | SignsOther(body: Json, now: Time)   // an envelope, probe answer or endpoint list goes out

  /** HandleHeartbeatAck. */
  function HandleAck(s: State, generation: int, now: Time): State {
    if generation == s.generation then s.(live := L.Mark(s.live, now, false)) else s
  }

  /** checkLiveness and, when it trips, dropAllPeers. */
  function CheckLiveness(s: State, now: Time): State {
    var (live, trip) := L.Check(s.live, s.appliedAt, now);
    s.(live := live, peers := if trip then s.peers - ClientKeys(s.members) else s.peers)
  }

  function Step(env: Env, s: State, e: Event): State {
    match e
    case PushArrives(p, now, finished, addOk) => HandlePush(env, s, p, now, finished, addOk).0
    case ChallengeArrives(req, nonce, now) => HandleChallenge(env, s, req, nonce, now).0
    case ProvisionArrives(req, now, added) => HandleProvision(env, s, req, now, added).0
    case AckArrives(generation, now) => HandleAck(s, generation, now)
    case LivenessCheck(now) => CheckLiveness(s, now)
    case NonceReap(now) => s.(nonces := N.Reap(s.nonces, now))
    case SignsOther(body, now) => if OtherBody(body) then s.(log := s.log + {Print(body)}) else s
  }

  function Run(env: Env, s: State, evs: seq<Event>): State {
    if evs == [] then s else Step(env, Run(env, s, evs[..|evs| - 1]), evs[|evs| - 1])
  }

  /** What pairing puts into the ACL: at most the owner's entry, without clients or apps. */
  predicate Bootstrapped(pin: string, ms: seq<Member>) {
    pin != "" && |ms| <= 1
    && forall i :: 0 <= i < |ms| ==>
         ms[i].role == "owner" && ms[i].identityKey == pin && ms[i].clients == [] && ms[i].apps == []
           && ms[i].status == "active"
  }

  function FreshAgent(net: Net24, server: Address, pin: string, boot: Time, ms: seq<Member>): State {
    State(ms, [], Some(pin), 0, 0, ms, Fresh(net, server), map[], Grants(ms), {}, L.Boot(boot), map[])
  }

  /** A paired agent that has applied and signed nothing yet. */
  predicate JustPaired(s: State, pin: string) {
    Bootstrapped(pin, s.members) && s == FreshAgent(s.alloc.net, s.alloc.server, pin, s.live.bootAt, s.members)
  }

  // ---- one provision event as an Install ----

  lemma {:induction false} ListedSomewhere(ms: seq<Member>, id: string)
    ensures Find(ms, HasId, id).Some? ==> FirstMember(ms, id) < |ms|
  {
  }

  /** What a provision event comes down to: the id and key it installs, if it gets that far. */
  function Target(env: Env, s: State, req: ProvisionReq, now: Time): Option<(string, Key)> {
    var entry := N.Consume(s.nonces, req.NonceKey(), req.nonce, now).1;
    if env.tunnelHost == "" || entry.None? || !RequestVerified(env, s.members, req, entry.value, now) then None
    else Some((entry.value.memberId, RequestedKey(req, entry.value)))
  }

  lemma {:induction false} ProvisionEvent(env: Env, s: State, req: ProvisionReq, now: Time, added: bool)
    ensures var s' := HandleProvision(env, s, req, now, added).0;
            var target := Target(env, s, req, now);
            if target.None? then s' == s.(nonces := s'.nonces)
            else
              var (id, k) := target.value;
              FirstMember(s.members, id) < |s.members| &&
              var t := s.(nonces := s'.nonces);
              s' == Provision(env, t, id, k, N.Consume(s.nonces, req.NonceKey(), req.nonce, now).1.value.nonce, added).0
  {
    var (nonces, entry) := N.Consume(s.nonces, req.NonceKey(), req.nonce, now);
    if env.tunnelHost != "" && entry.Some? && RequestVerified(env, s.members, req, entry.value, now) {
      ListedSomewhere(s.members, entry.value.memberId);
      ProvisionKeepsNonces(env, s.(nonces := nonces), entry.value.memberId, RequestedKey(req, entry.value),
                           entry.value.nonce, added);
    }
  }

  /** The two rollbacks that break an invariant, as a test on the state before the event. */
  predicate LeavesNamesake(env: Env, s: State, e: Event) {
    e.ProvisionArrives? && Target(env, s, e.provision, e.now).Some? &&
    var (id, k) := Target(env, s, e.provision, e.now).value;
    RolledBack(env, s, id, k, e.added) && HeldByNamesake(s.members, id, k)
  }

  predicate LeavesPeer(env: Env, s: State, e: Event) {
    e.ProvisionArrives? && Target(env, s, e.provision, e.now).Some? &&
    var (id, k) := Target(env, s, e.provision, e.now).value;
    RolledBack(env, s, id, k, e.added) && k in s.peers
  }

  // ---- address agreement, exactly ----

  lemma {:induction false} InstallIgnores(env: Env, s: State, t: State, id: string, k: Key, addOk: bool)
    requires t == s.(nonces := t.nonces)
    ensures var a, b := Install(env, s, id, k, addOk).0, Install(env, t, id, k, addOk).0;
            b == a.(nonces := t.nonces)
  {
  }

  /** A provision step, up to nonces and signatures, is the Install of its target. */
  lemma {:induction false} ProvisionStep(env: Env, s: State, e: Event)
    requires e.ProvisionArrives?
    ensures var s' := Step(env, s, e);
            var target := Target(env, s, e.provision, e.now);
            if target.None? then s' == s.(nonces := s'.nonces)
            else
              var (id, k) := target.value;
              FirstMember(s.members, id) < |s.members| &&
              s' == Install(env, s, id, k, e.added).0.(nonces := s'.nonces, log := s'.log)
  {
    ProvisionEvent(env, s, e.provision, e.now, e.added);
    var target := Target(env, s, e.provision, e.now);
    if target.Some? {
      var (id, k) := target.value;
      var t := s.(nonces := Step(env, s, e).nonces);
      ProvisionIsInstall(env, t, id, k,
                         N.Consume(s.nonces, e.provision.NonceKey(), e.provision.nonce, e.now).1.value.nonce, e.added);
      InstallIgnores(env, s, t, id, k, e.added);
    }
  }

  lemma {:induction false} ProvisionStepAgreement(env: Env, s: State, e: Event)
    requires e.ProvisionArrives? && Agreement(env, s)
    ensures Agreement(env, Step(env, s, e)) <==> !LeavesNamesake(env, s, e)
  {
    ProvisionStep(env, s, e);
    var target := Target(env, s, e.provision, e.now);
    if target.Some? {
      ProvisionAgreementIff(env, s, target.value.0, target.value.1, e.added);
    }
  }

  /** Every step keeps "each keyed client holds exactly the address the allocator binds to its key",
      except a rollback that leaves the key with a namesake of the member. */
  lemma {:induction false} StepAgreementIff(env: Env, s: State, e: Event)
    requires Agreement(env, s)
    ensures Agreement(env, Step(env, s, e)) <==> !LeavesNamesake(env, s, e)
  {
    match e
    case PushArrives(p, now, finished, addOk) => PushKeepsAgreement(env, s, p, now, finished, addOk);
    case ProvisionArrives(req, now, added) => ProvisionStepAgreement(env, s, e);
    case _ =>
  }

  // ---- peers, exactly ----

  lemma {:induction false} ProvisionStepPeers(env: Env, s: State, e: Event)
    requires e.ProvisionArrives? && Agreement(env, s) && PeersAgree(s)
    ensures PeersAgree(Step(env, s, e)) <==> !LeavesPeer(env, s, e)
  {
    ProvisionStep(env, s, e);
    var target := Target(env, s, e.provision, e.now);
    if target.Some? {
      var (id, k) := target.value;
      var t := Install(env, s, id, k, e.added).0;
      ProvisionPeersIff(env, s, id, k, e.added);
      assert PeersAgree(Step(env, s, e)) <==> PeersAgree(t) by { PeersIgnore(t, Step(env, s, e)); }
    }
  }

  lemma {:induction false} PeersIgnore(s: State, t: State)
    requires t.peers == s.peers && t.members == s.members && t.alloc == s.alloc
    ensures PeersAgree(t) <==> PeersAgree(s)
  {
  }

  lemma {:induction false} UnappliedPushPeers(env: Env, s: State, p: Push, now: Time, finished: Time, addOk: AddOk)
    requires Agreement(env, s) && PeersAgree(s) && HandlePush(env, s, p, now, finished, addOk).1 != Applied
    ensures PeersAgree(HandlePush(env, s, p, now, finished, addOk).0)
  {
    UnappliedPush(env, s, p, now, finished, addOk);
  }

  lemma {:induction false} PushStepPeers(env: Env, s: State, p: Push, now: Time, finished: Time, addOk: AddOk)
    requires Agreement(env, s) && PeersAgree(s)
    ensures PeersAgree(HandlePush(env, s, p, now, finished, addOk).0)
  {
    if HandlePush(env, s, p, now, finished, addOk).1 == Applied {
      AppliedPushPeers(env, s, p, now, finished, addOk);
    } else {
      UnappliedPushPeers(env, s, p, now, finished, addOk);
    }
  }

  lemma {:induction false} QuietStepPeers(env: Env, s: State, e: Event)
    requires PeersAgree(s) && !e.PushArrives? && !e.ProvisionArrives?
    ensures PeersAgree(Step(env, s, e))
  {
  }

  /** Every step keeps "each peer is an ACL client at its allocator address", except the rollback of a
      key that already was a peer. */
  lemma {:induction false} StepPeersIff(env: Env, s: State, e: Event)
    requires Agreement(env, s) && PeersAgree(s)
    ensures PeersAgree(Step(env, s, e)) <==> !LeavesPeer(env, s, e)
  {
    match e
    case PushArrives(p, now, finished, addOk) => PushStepPeers(env, s, p, now, finished, addOk);
    case ProvisionArrives(req, now, added) => ProvisionStepPeers(env, s, e);
    case _ => QuietStepPeers(env, s, e);
  }

  /** When liveness trips, no peer is left if and only if every peer was an ACL client: dropAllPeers
      walks the ACL, not the peer table. */
  lemma {:induction false} FailClosedIff(s: State, now: Time)
    requires L.Check(s.live, s.appliedAt, now).1
    ensures CheckLiveness(s, now).peers == map[] <==> s.peers.Keys <= ClientKeys(s.members)
  {
    var ps := s.peers - ClientKeys(s.members);
    assert ps.Keys == s.peers.Keys - ClientKeys(s.members);
    assert s.peers.Keys <= ClientKeys(s.members) ==> ps.Keys == {};
    assert forall k :: k in s.peers && k !in ClientKeys(s.members) ==> k in ps;
  }

  // ---- membership ----

  ghost predicate AllocSound(s: State) {
    Valid(s.alloc) && Canonical(s.alloc)
  }

  lemma {:induction false} StepKeepsTrust(env: Env, owner: string, s: State, e: Event)
    requires Trusted(env, owner, s) && AllocSound(s)
    ensures Trusted(env, owner, Step(env, s, e)) && AllocSound(Step(env, s, e))
  {
    StepAllocSound(env, s, e);
    match e
    case PushArrives(p, now, finished, addOk) => PushKeepsTrust(env, owner, s, p, now, finished, addOk);
    case ProvisionArrives(req, now, added) =>
      ProvisionEvent(env, s, req, now, added);
      var target := Target(env, s, req, now);
      if target.Some? {
        var t := s.(nonces := Step(env, s, e).nonces);
        var nonce := N.Consume(s.nonces, req.NonceKey(), req.nonce, now).1.value.nonce;
        ProvisionKeepsTrust(env, owner, t, target.value.0, target.value.1, nonce, added);
      }
    case SignsOther(body, now) => TrustCarries(env, owner, s, Step(env, s, e));
    case _ =>
  }

  lemma {:induction false} StepAllocSound(env: Env, s: State, e: Event)
    requires AllocSound(s)
    ensures AllocSound(Step(env, s, e))
  {
    match e
    case PushArrives(p, now, finished, addOk) => PushAllocSound(env, s, p, now, finished, addOk);
    case ProvisionArrives(req, now, added) =>
      ProvisionStep(env, s, e);
      var target := Target(env, s, req, now);
      if target.Some? {
        InstallAllocSound(env, s, target.value.0, target.value.1, added);
      }
    case _ =>
  }

  lemma {:induction false} PushAllocSound(env: Env, s: State, p: Push, now: Time, finished: Time, addOk: AddOk)
    requires AllocSound(s)
    ensures AllocSound(HandlePush(env, s, p, now, finished, addOk).0)
  {
    if HandlePush(env, s, p, now, finished, addOk).1 == Applied {
      var owner, apps, v, a := AppliedMeans(env, s, p, now, finished, addOk);
      AcceptedAgree(env, s, p, now, owner, apps, v, a);
      ReleaseAllValid(a.alloc, ClientKeys(s.members) - ClientKeys(DeriveV6(env.server6, a.done)));
    } else {
      UnappliedPush(env, s, p, now, finished, addOk);
    }
  }

  lemma {:induction false} InstallAllocSound(env: Env, s: State, id: string, k: Key, addOk: bool)
    requires AllocSound(s)
    ensures AllocSound(Install(env, s, id, k, addOk).0)
  {
    StepKeeps(s.alloc, DoAllocate(k));
    StepKeeps(Allocate(s.alloc, k).0, DoRelease(k));
  }

  /** In every reachable state of a paired agent, whatever arrives: each admin's key is the pin, and
      each other member was vetted by a chain the pinned owner signed (see MemberWasVetted). */
  lemma {:induction false} RunTrusted(env: Env, owner: string, s: State, pin: string, evs: seq<Event>)
    requires JustPaired(s, pin) && env.decodeKey(pin) == Some(owner)
    ensures Trusted(env, owner, Run(env, s, evs)) && AllocSound(Run(env, s, evs))
  {
    if evs == [] {
      PairedReady(env, owner, s, pin);
    } else {
      RunTrusted(env, owner, s, pin, evs[..|evs| - 1]);
      StepKeepsTrust(env, owner, Run(env, s, evs[..|evs| - 1]), evs[|evs| - 1]);
    }
  }

  lemma {:induction false} PairedReady(env: Env, owner: string, s: State, pin: string)
    requires JustPaired(s, pin) && env.decodeKey(pin) == Some(owner)
    ensures Trusted(env, owner, s) && Agreement(env, s) && PeersAgree(s)
  {
    FreshValid(s.alloc.net, s.alloc.server);
  }

  // ---- addresses and peers over whole runs, exactly ----

  ghost function AgreesAfter(env: Env, s: State): seq<Event> -> bool {
    (evs: seq<Event>) => Agreement(env, Run(env, s, evs))
  }

  ghost function PeersAgreeAfter(env: Env, s: State): seq<Event> -> bool {
    (evs: seq<Event>) => PeersAgree(Run(env, s, evs))
  }

  ghost function LeavesNamesakeAfter(env: Env, s: State): (seq<Event>, Event) -> bool {
    (evs: seq<Event>, e: Event) => LeavesNamesake(env, Run(env, s, evs), e)
  }

  ghost function LeavesPeerAfter(env: Env, s: State): (seq<Event>, Event) -> bool {
    (evs: seq<Event>, e: Event) => LeavesPeer(env, Run(env, s, evs), e)
  }

  lemma {:induction false} RunStep(env: Env, s: State, evs: seq<Event>, i: nat)
    requires i < |evs|
    ensures Run(env, s, evs[..i + 1]) == Step(env, Run(env, s, evs[..i]), evs[i])
  {
    assert evs[..i + 1][..i] == evs[..i];
  }

  lemma {:induction false} AgreementAt(env: Env, s: State, evs: seq<Event>, i: nat)
    requires i < |evs| && Agreement(env, Run(env, s, evs[..i]))
    ensures Agreement(env, Run(env, s, evs[..i + 1])) <==> !LeavesNamesake(env, Run(env, s, evs[..i]), evs[i])
    ensures PeersAgree(Run(env, s, evs[..i])) ==>
              (PeersAgree(Run(env, s, evs[..i + 1])) <==> !LeavesPeer(env, Run(env, s, evs[..i]), evs[i]))
  {
    RunStep(env, s, evs, i);
    StepAgreementIff(env, Run(env, s, evs[..i]), evs[i]);
    if PeersAgree(Run(env, s, evs[..i])) {
      StepPeersIff(env, Run(env, s, evs[..i]), evs[i]);
    }
  }

  /** From a state in agreement, under any interleaving of accepted and refused pushes, successful and
      rolled-back provisions, heartbeats and checks: every keyed client holds exactly the address the
      allocator binds to its key throughout (so, DistinctKeysDistinctAddresses, distinct keys have
      distinct addresses in both families), if and only if no rollback leaves a key with a namesake. */
  lemma {:induction false} RunAgreementIff(env: Env, s: State, evs: seq<Event>)
    requires Agreement(env, s)
    ensures Throughout(evs, AgreesAfter(env, s)) <==> Harmless(evs, LeavesNamesakeAfter(env, s))
  {
    forall i | 0 <= i < |evs| && Agreement(env, Run(env, s, evs[..i]))
      ensures Agreement(env, Run(env, s, evs[..i + 1])) <==> !LeavesNamesake(env, Run(env, s, evs[..i]), evs[i])
    {
      AgreementAt(env, s, evs, i);
    }
    ThroughoutIff(evs, AgreesAfter(env, s), LeavesNamesakeAfter(env, s));
  }

  /** From a state where peers are in step as well, both hold throughout if and only if the run has
      neither kind of rollback: onto a namesake, or of a key that already is a peer. */
  lemma {:induction false} RunPeersIff(env: Env, s: State, evs: seq<Event>)
    requires Agreement(env, s) && PeersAgree(s)
    ensures Throughout(evs, AgreesAfter(env, s)) && Throughout(evs, PeersAgreeAfter(env, s))
            <==> Harmless(evs, LeavesNamesakeAfter(env, s)) && Harmless(evs, LeavesPeerAfter(env, s))
  {
    forall i | 0 <= i < |evs| && Agreement(env, Run(env, s, evs[..i]))
      ensures Agreement(env, Run(env, s, evs[..i + 1])) <==> !LeavesNamesake(env, Run(env, s, evs[..i]), evs[i])
      ensures PeersAgree(Run(env, s, evs[..i])) ==>
                (PeersAgree(Run(env, s, evs[..i + 1])) <==> !LeavesPeer(env, Run(env, s, evs[..i]), evs[i]))
    {
      AgreementAt(env, s, evs, i);
    }
    BothThroughoutIff(evs, AgreesAfter(env, s), PeersAgreeAfter(env, s), LeavesNamesakeAfter(env, s),
                      LeavesPeerAfter(env, s));
  }

  // ---- distinct member ids: a test on the pushes alone ----

  /** Every push in the run lists each member id once. */
  ghost predicate DistinctPushes(evs: seq<Event>) {
    forall i :: 0 <= i < |evs| && evs[i].PushArrives? ==> R.DistinctPushIds(evs[i].push.members)
  }

  lemma {:induction false} PushKeepsDistinctIds(env: Env, s: State, p: Push, now: Time, finished: Time, addOk: AddOk)
    requires AllocSound(s) && DistinctIds(s.members) && R.DistinctPushIds(p.members)
    ensures DistinctIds(HandlePush(env, s, p, now, finished, addOk).0.members)
  {
    if HandlePush(env, s, p, now, finished, addOk).1 == Applied {
      var owner, apps, v, a := AppliedMeans(env, s, p, now, finished, addOk);
      AcceptedAgree(env, s, p, now, owner, apps, v, a);
      R.VerifiedMadeFrom(Ctx(env, owner, s.members, apps, now), s.log, p.members);
      forall i | 0 <= i < |a.done|
        ensures a.done[i].id == p.members[i].id
      {
        assert SitedMember(a.alloc, v.members[i], a.done[i]);
      }
    }
  }

  lemma {:induction false} StepKeepsDistinctIds(env: Env, s: State, e: Event)
    requires AllocSound(s) && DistinctIds(s.members) && (e.PushArrives? ==> R.DistinctPushIds(e.push.members))
    ensures DistinctIds(Step(env, s, e).members)
  {
    match e
    case PushArrives(p, now, finished, addOk) => PushKeepsDistinctIds(env, s, p, now, finished, addOk);
    case ProvisionArrives(req, now, added) =>
      ProvisionStep(env, s, e);
      var target := Target(env, s, req, now);
      if target.Some? {
        InstallSamePeople(env, s, target.value.0, target.value.1, added);
      }
    case _ =>
  }

  lemma {:induction false} RunDistinctIds(env: Env, s: State, evs: seq<Event>)
    requires AllocSound(s) && DistinctIds(s.members) && DistinctPushes(evs)
    ensures AllocSound(Run(env, s, evs)) && DistinctIds(Run(env, s, evs).members)
  {
    if evs != [] {
      var n := |evs| - 1;
      RunDistinctIds(env, s, evs[..n]);
      StepKeepsDistinctIds(env, Run(env, s, evs[..n]), evs[n]);
      StepAllocSound(env, Run(env, s, evs[..n]), evs[n]);
    }
  }

  /** From a fresh agent, pushes that list each member id once are enough for agreement throughout. */
  lemma {:induction false} RunAgreement(env: Env, s: State, pin: string, evs: seq<Event>)
    requires JustPaired(s, pin) && DistinctPushes(evs)
    ensures Throughout(evs, AgreesAfter(env, s)) && DistinctIds(Run(env, s, evs).members)
  {
    FreshValid(s.alloc.net, s.alloc.server);
    RunDistinctIds(env, s, evs);
    forall i | 0 <= i < |evs|
      ensures !LeavesNamesake(env, Run(env, s, evs[..i]), evs[i])
    {
      RunDistinctIds(env, s, evs[..i]);
      NoNamesakeAt(env, Run(env, s, evs[..i]), evs[i]);
    }
    RunAgreementIff(env, s, evs);
  }

  lemma {:induction false} NoNamesakeAt(env: Env, s: State, e: Event)
    requires DistinctIds(s.members)
    ensures !LeavesNamesake(env, s, e)
  {
    if e.ProvisionArrives? && Target(env, s, e.provision, e.now).Some? {
      var (id, k) := Target(env, s, e.provision, e.now).value;
      NoNamesakes(s.members, id, k);
    }
  }

  /** The applied generation never goes down, from any state, whatever arrives. */
  lemma {:induction false} RunGeneration(env: Env, s: State, evs: seq<Event>)
    ensures Run(env, s, evs).generation >= s.generation
  {
    if evs != [] {
      var n := |evs| - 1;
      RunGeneration(env, s, evs[..n]);
      StepGeneration(env, Run(env, s, evs[..n]), evs[n]);
    }
  }

  lemma {:induction false} StepGeneration(env: Env, s: State, e: Event)
    ensures Step(env, s, e).generation >= s.generation
  {
    match e
    case PushArrives(p, now, finished, addOk) => GenerationNeverDecreases(env, s, p, now, finished, addOk);
    case ProvisionArrives(req, now, added) => ProvisionKeepsGeneration(env, s, e);
    case _ =>
  }

  lemma {:induction false} ProvisionKeepsGeneration(env: Env, s: State, e: Event)
    requires e.ProvisionArrives?
    ensures Step(env, s, e).generation == s.generation
  {
    ProvisionStep(env, s, e);
  }
}
