/** The nonce protocol and the liveness timer inside runs of the whole agent. */
module AgentProtocols {
  import opened Base
  import opened Wire
  import opened Signing
  import opened DeviceState
  import opened Provisioning
  import opened AgentRuns
  import opened Commands
  import P = ProvisionFacts
  import N = Nonces

  // ---- nonces ----

  /** What the event means to the nonce store; an event that does not touch it is an unverified challenge. */
  function NonceEvent(env: Env, s: State, e: Event): N.Event {
    match e
    case ChallengeArrives(req, nonce, now) =>
      N.Challenge(req.corr, N.Entry(nonce, req.Id(), req.clientKey, now),
                  HandleChallenge(env, s, req, nonce, now).1.Some?, now)
    case ProvisionArrives(req, now, added) =>
      if env.tunnelHost == "" then Untouched()
      else N.Provision(req.NonceKey(), req.nonce, (id: string) => Vouched(env, s.members, req, id, now), now)
    case NonceReap(now) => N.Reaped(now)
    case _ => Untouched()
  }

  function Untouched(): N.Event {
    N.Challenge("", N.Entry("", "", "", 0), false, 0)
  }

  /** The request verifies as this member's. */
  predicate Vouched(env: Env, ms: seq<Member>, req: ProvisionReq, id: string, now: Time) {
    RequestVerified(env, ms, req, N.Entry("", id, "", 0), now)
  }

  function NonceEvents(env: Env, s: State, evs: seq<Event>): (r: seq<N.Event>)
    ensures |r| == |evs|
  {
    if evs == [] then []
    else NonceEvents(env, s, evs[..|evs| - 1]) + [NonceEvent(env, Run(env, s, evs[..|evs| - 1]), evs[|evs| - 1])]
  }

  lemma {:induction false} NonceEventsAt(env: Env, s: State, evs: seq<Event>, i: nat)
    requires i < |evs|
    ensures NonceEvents(env, s, evs)[i] == NonceEvent(env, Run(env, s, evs[..i]), evs[i])
    ensures NonceEvents(env, s, evs)[..i] == NonceEvents(env, s, evs[..i])
  {
    var n := |evs| - 1;
    if i < n {
      NonceEventsAt(env, s, evs[..n], i);
      assert evs[..n][..i] == evs[..i];
    }
  }

  lemma {:induction false} NonceStep(env: Env, s: State, e: Event)
    ensures Step(env, s, e).nonces == N.Step(s.nonces, NonceEvent(env, s, e)).0
  {
    match e
    case PushArrives(p, now, finished, addOk) => PushIgnoresNonces(env, s, p, now, finished, addOk);
    case ProvisionArrives(req, now, added) => ProvisionNonces(env, s, req, now, added);
    case _ =>
  }

  lemma {:induction false} ProvisionNonces(env: Env, s: State, req: ProvisionReq, now: Time, added: bool)
    ensures HandleProvision(env, s, req, now, added).0.nonces
            == if env.tunnelHost == "" then s.nonces else N.Consume(s.nonces, req.NonceKey(), req.nonce, now).0
  {
    var (nonces, entry) := N.Consume(s.nonces, req.NonceKey(), req.nonce, now);
    if env.tunnelHost != "" && entry.Some? && RequestVerified(env, s.members, req, entry.value, now) {
      P.ProvisionKeepsNonces(env, s.(nonces := nonces), entry.value.memberId, RequestedKey(req, entry.value),
                             entry.value.nonce, added);
    }
  }

  lemma {:induction false} PushIgnoresNonces(env: Env, s: State, p: Push, now: Time, finished: Time, addOk: AddOk)
    ensures HandlePush(env, s, p, now, finished, addOk).0.nonces == s.nonces
  {
  }

  /** The nonce store of a run is the nonce protocol's run over the projected events. */
  lemma {:induction false} NonceRun(env: Env, s: State, evs: seq<Event>)
    requires s.nonces == map[]
    ensures Run(env, s, evs).nonces == N.Run(NonceEvents(env, s, evs))
  {
    if evs != [] {
      var n := |evs| - 1;
      NonceRun(env, s, evs[..n]);
      NonceStep(env, Run(env, s, evs[..n]), evs[n]);
      var ns := NonceEvents(env, s, evs);
      assert ns[..n] == NonceEvents(env, s, evs[..n]);
    }
  }

  /** A provision that is answered is a success of the nonce protocol, and the answer echoes its nonce. */
  lemma {:induction false} AnsweredIsSuccess(env: Env, s: State, req: ProvisionReq, now: Time, added: bool)
    requires HandleProvision(env, s, req, now, added).1.Some?
    ensures var out := N.Step(s.nonces, NonceEvent(env, s, ProvisionArrives(req, now, added))).1;
            out.Some? && Vouched(env, s.members, req, out.value.memberId, now)
            && HandleProvision(env, s, req, now, added).1.value.nonce == req.nonce
  {
    var entry := N.Consume(s.nonces, req.NonceKey(), req.nonce, now).1;
    assert RequestVerified(env, s.members, req, entry.value, now)
           == Vouched(env, s.members, req, entry.value.memberId, now);
  }

  predicate Answered(env: Env, s: State, evs: seq<Event>, j: nat)
    requires j < |evs|
  {
    evs[j].ProvisionArrives?
      && HandleProvision(env, Run(env, s, evs[..j]), evs[j].provision, evs[j].now, evs[j].added).1.Some?
  }

  /** The challenge event that provision event j consumes, if any. */
  function ChallengeOf(env: Env, s: State, evs: seq<Event>, j: nat): Option<nat>
    requires j < |evs| && evs[j].ProvisionArrives?
  {
    N.Source(NonceEvents(env, s, evs)[..j], evs[j].provision.NonceKey())
  }

  function NamedMember(req: ChallengeReq): string {
    if req.membershipId != "" then req.membershipId else req.memberId
  }

  lemma {:induction false} VerifiedChallenge(env: Env, s: State, e: Event)
    requires NonceEvent(env, s, e).Challenge? && NonceEvent(env, s, e).verified
    ensures var c := NonceEvent(env, s, e);
            && e.ChallengeArrives? && c.now == e.now && c.corr == e.challenge.corr
            && c.entry.nonce == e.nonce && c.entry.memberId == NamedMember(e.challenge)
            && ChallengeStands(env, s.members, e.challenge, e.now)
  {
    ChallengeIff(env, s, e.challenge, e.nonce, e.now);
  }

  lemma {:induction false} VouchedStands(env: Env, ms: seq<Member>, req: ProvisionReq, id: string, now: Time)
    requires Vouched(env, ms, req, id, now)
    ensures RequestStands(env, ms, req, id, now)
  {
    RequestIff(env, ms, req, N.Entry("", id, "", 0), now);
  }

  /** In any run of the agent, every answered provision consumes a challenge of the same member that it names
      and whose nonce it echoes, at most five minutes old. The challenge was, and the provision is, signed by
      the key the ACL held for that member at that moment, with its intent, and dated within two minutes. */
  lemma {:induction false} AnsweredProvision(env: Env, s: State, evs: seq<Event>, j: nat)
    requires s.nonces == map[] && j < |evs| && Answered(env, s, evs, j)
    ensures var i, req := ChallengeOf(env, s, evs, j), evs[j].provision;
            && i.Some? && i.value < j && evs[i.value].ChallengeArrives?
            && var challenge := evs[i.value].challenge;
               && challenge.corr == (if req.challengeCorr != "" then req.challengeCorr else req.corr)
               && evs[i.value].nonce == req.nonce
               && ChallengeStands(env, Run(env, s, evs[..i.value]).members, challenge, evs[i.value].now)
               && RequestStands(env, Run(env, s, evs[..j]).members, req, NamedMember(challenge), evs[j].now)
               && evs[j].now - evs[i.value].now <= 5 * 60 * 1_000_000_000
  {
    var ns := NonceEvents(env, s, evs);
    SuccessAt(env, s, evs, j);
    NonceEventsAt(env, s, evs, j);
    ProvisionProjects(env, Run(env, s, evs[..j]), evs[j], ns[j]);
    N.SuccessAnswersChallenge(ns, j);
    var i := ChallengeOf(env, s, evs, j).value;
    NonceEventsAt(env, s, evs, i);
    VerifiedChallenge(env, Run(env, s, evs[..i]), evs[i]);
    VouchedStands(env, Run(env, s, evs[..j]).members, evs[j].provision, NamedMember(evs[i].challenge), evs[j].now);
  }

  lemma {:induction false} ProvisionProjects(env: Env, s: State, e: Event, n: N.Event)
    requires n == NonceEvent(env, s, e) && e.ProvisionArrives? && n.Provision?
    ensures n.key == e.provision.NonceKey() && n.nonce == e.provision.nonce && n.now == e.now
    ensures forall id :: n.auth(id) <==> Vouched(env, s.members, e.provision, id, e.now)
  {
  }

  lemma {:induction false} SuccessAt(env: Env, s: State, evs: seq<Event>, j: nat)
    requires s.nonces == map[] && j < |evs| && Answered(env, s, evs, j)
    ensures N.Outcome(NonceEvents(env, s, evs), j).Some? && NonceEvents(env, s, evs)[j].Provision?
  {
    NonceEventsAt(env, s, evs, j);
    NonceRun(env, s, evs[..j]);
    AnsweredIsSuccess(env, Run(env, s, evs[..j]), evs[j].provision, evs[j].now, evs[j].added);
  }

  /** No challenge answers two provisions. */
  lemma {:induction false} ChallengeAnsweredOnce(env: Env, s: State, evs: seq<Event>, j1: nat, j2: nat)
    requires s.nonces == map[] && j1 < j2 < |evs| && Answered(env, s, evs, j1) && Answered(env, s, evs, j2)
    ensures ChallengeOf(env, s, evs, j1) != ChallengeOf(env, s, evs, j2)
  {
    SuccessAt(env, s, evs, j1);
    SuccessAt(env, s, evs, j2);
    NonceEventsAt(env, s, evs, j1);
    NonceEventsAt(env, s, evs, j2);
    N.ChallengeUsedOnce(NonceEvents(env, s, evs), j1, j2);
  }

  /** No two challenges of the run drew the same nonce. */
  ghost predicate FreshChallenges(evs: seq<Event>) {
    forall i, j :: 0 <= i < j < |evs| && evs[i].ChallengeArrives? && evs[j].ChallengeArrives? ==>
      evs[i].nonce != evs[j].nonce
  }

  /** In any run no nonce is answered twice. */
  lemma {:induction false} NonceAnsweredOnce(env: Env, s: State, evs: seq<Event>, j1: nat, j2: nat)
    requires s.nonces == map[] && FreshChallenges(evs)
    requires j1 < j2 < |evs| && Answered(env, s, evs, j1) && Answered(env, s, evs, j2)
    ensures evs[j1].provision.nonce != evs[j2].provision.nonce
  {
    AnsweredProvision(env, s, evs, j1);
    AnsweredProvision(env, s, evs, j2);
    ChallengeAnsweredOnce(env, s, evs, j1, j2);
  }

  // ---- the reaper is invisible to everybody the agent talks to ----

  /** t is s, short of some nonces already expired at now. */
  ghost predicate Twin(s: State, t: State, now: Time) {
    t == s.(nonces := t.nonces) && N.Shadow(s.nonces, t.nonces, now)
  }

  lemma {:induction false} PushIgnoresTwin(env: Env, s: State, t: State, p: Push, now: Time, finished: Time,
                                           addOk: AddOk)
    requires t == s.(nonces := t.nonces)
    ensures var (s', v) := HandlePush(env, s, p, now, finished, addOk);
            HandlePush(env, t, p, now, finished, addOk) == (s'.(nonces := t.nonces), v) && s'.nonces == s.nonces
  {
  }

  lemma {:induction false} ProvisionIgnoresTwin(env: Env, s: State, t: State, id: string, k: string, nonce: string,
                                                addOk: bool)
    requires t == s.(nonces := t.nonces)
    ensures var (s', r) := Provision(env, s, id, k, nonce, addOk);
            Provision(env, t, id, k, nonce, addOk) == (s'.(nonces := t.nonces), r) && s'.nonces == s.nonces
  {
    InstallIgnores(env, s, t, id, k, addOk);
    P.ProvisionKeepsNonces(env, s, id, k, nonce, addOk);
    P.ProvisionKeepsNonces(env, t, id, k, nonce, addOk);
  }

  lemma {:induction false} ConsumeShadow(full: N.Pending, reaped: N.Pending, key: string, nonce: string, now: Time)
    requires N.Shadow(full, reaped, now)
    ensures N.Consume(full, key, nonce, now).1 == N.Consume(reaped, key, nonce, now).1
    ensures N.Shadow(N.Consume(full, key, nonce, now).0, N.Consume(reaped, key, nonce, now).0, now)
  {
  }

  lemma {:induction false} ProvisionTwin(env: Env, s: State, t: State, req: ProvisionReq, now: Time, added: bool)
    requires Twin(s, t, now)
    ensures HandleProvision(env, s, req, now, added).1 == HandleProvision(env, t, req, now, added).1
    ensures Twin(HandleProvision(env, s, req, now, added).0, HandleProvision(env, t, req, now, added).0, now)
  {
    ConsumeShadow(s.nonces, t.nonces, req.NonceKey(), req.nonce, now);
    var (ns, entry) := N.Consume(s.nonces, req.NonceKey(), req.nonce, now);
    var nt := N.Consume(t.nonces, req.NonceKey(), req.nonce, now).0;
    if env.tunnelHost != "" && entry.Some? && RequestVerified(env, s.members, req, entry.value, now) {
      ProvisionIgnoresTwin(env, s.(nonces := ns), t.(nonces := nt), entry.value.memberId,
                           RequestedKey(req, entry.value), entry.value.nonce, added);
    }
  }

  lemma {:induction false} StepTwin(env: Env, s: State, t: State, e: Event)
    requires Twin(s, t, e.now)
    ensures Twin(if e.NonceReap? then s else Step(env, s, e), Step(env, t, e), e.now)
  {
    match e
    case PushArrives(p, now, finished, addOk) => PushIgnoresTwin(env, s, t, p, now, finished, addOk);
    case ProvisionArrives(req, now, added) => ProvisionTwin(env, s, t, req, now, added);
    case _ =>
  }

  function WithoutReaps(evs: seq<Event>): seq<Event> {
    if evs == [] then []
    else
      var n := |evs| - 1;
      if evs[n].NonceReap? then WithoutReaps(evs[..n]) else WithoutReaps(evs[..n]) + [evs[n]]
  }

  ghost predicate Monotone(evs: seq<Event>) {
    forall i, j :: 0 <= i < j < |evs| ==> evs[i].now <= evs[j].now
  }

  lemma {:induction false} RunSnoc(env: Env, s: State, evs: seq<Event>, e: Event)
    ensures Run(env, s, evs + [e]) == Step(env, Run(env, s, evs), e)
  {
    assert (evs + [e])[..|evs|] == evs;
  }

  lemma {:induction false} RunTwin(env: Env, s: State, evs: seq<Event>, now: Time)
    requires Monotone(evs) && forall i :: 0 <= i < |evs| ==> evs[i].now <= now
    ensures Twin(Run(env, s, WithoutReaps(evs)), Run(env, s, evs), now)
  {
    if evs == [] {
      assert Twin(s, s, now);
    } else {
      var n := |evs| - 1;
      RunTwin(env, s, evs[..n], evs[n].now);
      RunTwinSnoc(env, s, evs[..n], evs[n]);
      assert evs[..n] + [evs[n]] == evs;
      TwinLater(Run(env, s, WithoutReaps(evs)), Run(env, s, evs), evs[n].now, now);
    }
  }

  lemma {:induction false} TwinLater(s: State, t: State, now: Time, later: Time)
    requires Twin(s, t, now) && now <= later
    ensures Twin(s, t, later)
  {
  }

  lemma {:induction false} RunTwinSnoc(env: Env, s: State, front: seq<Event>, e: Event)
    requires Twin(Run(env, s, WithoutReaps(front)), Run(env, s, front), e.now)
    ensures Twin(Run(env, s, WithoutReaps(front + [e])), Run(env, s, front + [e]), e.now)
  {
    var u, t := Run(env, s, WithoutReaps(front)), Run(env, s, front);
    StepTwin(env, u, t, e);
    RunSnoc(env, s, front, e);
    RunSnoc(env, s, WithoutReaps(front), e);
    assert (front + [e])[..|front|] == front && (front + [e])[|front|] == e;
  }

  /** With a monotone clock, at any moment of any run: without any reaping the agent would be in the same
      state but for expired nonces, and answer the next challenge or provision the same. */
  lemma {:induction false} ReapingChangesNothing(env: Env, s: State, evs: seq<Event>, e: Event)
    requires Monotone(evs + [e])
    ensures var t, u := Run(env, s, evs), Run(env, s, WithoutReaps(evs));
            && t == u.(nonces := t.nonces)
            && (e.ChallengeArrives? ==>
                HandleChallenge(env, t, e.challenge, e.nonce, e.now).1
                == HandleChallenge(env, u, e.challenge, e.nonce, e.now).1)
            && (e.ProvisionArrives? ==>
                HandleProvision(env, t, e.provision, e.now, e.added).1
                == HandleProvision(env, u, e.provision, e.now, e.added).1)
  {
    assert forall i :: 0 <= i < |evs| ==> (evs + [e])[i] == evs[i];
    assert (evs + [e])[|evs|] == e;
    RunTwin(env, s, evs, e.now);
    if e.ProvisionArrives? {
      ProvisionTwin(env, Run(env, s, WithoutReaps(evs)), Run(env, s, evs), e.provision, e.now, e.added);
    }
  }
}
