/** Firewall grants over whole lives: an applied push and a restart refresh them, nothing else does. */
module LifeGrants {
  import opened Base
  import opened Prefixes
  import opened Acl
  import opened Signing
  import opened DeviceState
  import opened Addressing
  import opened Membership
  import opened SavedAcl
  import St = Startup
  import Re = Restarts
  import opened Firewall
  import opened Lives
  import R = AgentRuns
  import G = GrantDrift

  /** The moment hands the ACL's grants to the firewall. */
  predicate Refreshes(env: Env, s: State, m: Moment) {
    match m
    case Happens(e) => e.PushArrives? && HandlePush(env, s, e.push, e.now, e.finished, e.addOk).1 == Applied
    case Reboots(b, boot, addOk) => true
  }

  lemma {:induction false} NextGrants(env: Env, s: State, m: Moment)
    requires R.AllocSound(s) && (m.Reboots? ==> Re.LoadedOn(s.alloc, m.b))
    ensures R.AllocSound(Next(env, s, m))
    ensures Next(env, s, m).grants == if Refreshes(env, s, m) then Grants(Next(env, s, m).members) else s.grants
  {
    match m
    case Happens(e) =>
      G.StepGrants(env, s, e);
      R.StepAllocSound(env, s, e);
    case Reboots(b, boot, addOk) =>
      St.ReconcileSound(env, b, if s.pin.Some? then St.KeepCertified(env, s.log, s.saved) else s.saved, map[], addOk);
  }

  // ---- whole lives ----

  /** How far into the life the last refresh lies: the moments up to and including it. */
  function LastRefresh(env: Env, s: State, ms: seq<Moment>): (n: nat)
    ensures n <= |ms|
  {
    if ms == [] then 0 else if RefreshesLast(env, s, ms) then |ms| else LastRefresh(env, s, ms[..|ms| - 1])
  }

  predicate RefreshesLast(env: Env, s: State, ms: seq<Moment>)
    requires ms != []
  {
    Refreshes(env, Life(env, s, ms[..|ms| - 1]), ms[|ms| - 1])
  }

  lemma {:induction false} FeasibleFront(env: Env, s: State, ms: seq<Moment>)
    requires ms != [] && Feasible(env, s, ms)
    ensures Feasible(env, s, ms[..|ms| - 1])
    ensures ms[|ms| - 1].Reboots? ==> Re.LoadedOn(Life(env, s, ms[..|ms| - 1]).alloc, ms[|ms| - 1].b)
  {
    var front := ms[..|ms| - 1];
    forall i | 0 <= i < |front| && front[i].Reboots?
      ensures Re.LoadedOn(Life(env, s, front[..i]).alloc, front[i].b)
    {
      assert front[..i] == ms[..i] && ms[i].Reboots?;
    }
  }

  lemma {:induction false} LastGrants(env: Env, s: State, ms: seq<Moment>)
    requires ms != [] && Feasible(env, s, ms) && R.AllocSound(Life(env, s, ms[..|ms| - 1]))
    ensures R.AllocSound(Life(env, s, ms))
    ensures Life(env, s, ms).grants
            == if RefreshesLast(env, s, ms) then Grants(Life(env, s, ms).members)
              else Life(env, s, ms[..|ms| - 1]).grants
  {
    FeasibleFront(env, s, ms);
    NextGrants(env, Life(env, s, ms[..|ms| - 1]), ms[|ms| - 1]);
  }

  /** The grants are those of the members as the last applied push or restart left them. */
  lemma {:induction false} GrantsOfLife(env: Env, s: State, ms: seq<Moment>)
    requires R.AllocSound(s) && s.grants == Grants(s.members) && Feasible(env, s, ms)
    ensures R.AllocSound(Life(env, s, ms))
    ensures Life(env, s, ms).grants == Grants(Life(env, s, ms[..LastRefresh(env, s, ms)]).members)
  {
    if ms == [] {
      assert ms[..0] == ms;
    } else {
      var front := ms[..|ms| - 1];
      FeasibleFront(env, s, ms);
      GrantsOfLife(env, s, front);
      LastGrants(env, s, ms);
      assert ms[..|ms|] == ms;
      assert front[..LastRefresh(env, s, front)] == ms[..LastRefresh(env, s, front)];
    }
  }

  /** The chains compiled from them decide every packet by those members. */
  lemma {:induction false} LifeReachability(env: Env, s: State, ms: seq<Moment>, ports: seq<int>, f: Family, p: Packet)
    requires R.AllocSound(s) && s.grants == Grants(s.members) && Feasible(env, s, ms)
    ensures var gs, us := Life(env, s, ms).grants, Life(env, s, ms[..LastRefresh(env, s, ms)]).members;
            && Decide(InputRules(ports, gs, f), p)
               == Some(p.established || p.proto == Icmp || (p.proto == Tcp && p.dport > 0 && p.dport in ports)
                       || Granted(us, f, p))
            && Decide(ForwardRules(gs, f), p) == Some(Granted(us, f, p))
  {
    GrantsOfLife(env, s, ms);
    var us := Life(env, s, ms[..LastRefresh(env, s, ms)]).members;
    InputMeaning(ports, us, f, p);
    ForwardMeaning(us, f, p);
  }

  // ---- the ACL's grants throughout, exactly ----

  ghost predicate Drifts(env: Env, s: State, m: Moment) {
    m.Happens? && G.Drifts(env, s, m.e)
  }

  ghost function CurrentAfter(env: Env, s: State): seq<Moment> -> bool {
    (ms: seq<Moment>) => G.Current(Life(env, s, ms))
  }

  ghost function DriftsAfter(env: Env, s: State): (seq<Moment>, Moment) -> bool {
    (ms: seq<Moment>, m: Moment) => Drifts(env, Life(env, s, ms), m)
  }

  lemma {:induction false} NextCurrentIff(env: Env, s: State, m: Moment)
    requires Agreement(env, s) && G.Current(s)
    ensures G.Current(Next(env, s, m)) <==> !Drifts(env, s, m)
  {
    match m
    case Happens(e) => G.StepGrantsIff(env, s, e);
    case Reboots(b, boot, addOk) => OwnGrantsCurrent(Next(env, s, m));
  }

  lemma {:induction false} OwnGrantsCurrent(t: State)
    requires t.grants == Grants(t.members)
    ensures G.Current(t)
  {
    forall f, p
      ensures SomeGrantAccepts(t.grants, f, p) <==> Granted(t.members, f, p)
    {
      GrantsMean(t.members, f, p);
    }
  }

  /** Through any number of restarts and events, addresses agree and the grants are the ACL's throughout, if
      and only if no moment breaks the agreement or is a provision that changes the ports open to its key. */
  lemma {:induction false} LifeGrantsIff(env: Env, owner: string, s: State, ms: seq<Moment>)
    requires Trusted(env, owner, s) && Agreement(env, s) && Backed(env, s) && G.Current(s) && Feasible(env, s, ms)
    ensures Throughout(ms, AgreesAfter(env, s)) && Throughout(ms, CurrentAfter(env, s))
            <==> Harmless(ms, BreaksAfter(env, s)) && Harmless(ms, DriftsAfter(env, s))
  {
    LifeAgreementIff(env, owner, s, ms);
    if Throughout(ms, AgreesAfter(env, s)) {
      forall i | 0 <= i < |ms| && CurrentAfter(env, s)(ms[..i])
        ensures CurrentAfter(env, s)(ms[..i + 1]) <==> !DriftsAfter(env, s)(ms[..i], ms[i])
      {
        assert AgreesAfter(env, s)(ms[..i]);
        LifeStep(env, s, ms, i);
        NextCurrentIff(env, Life(env, s, ms[..i]), ms[i]);
      }
      ThroughoutIff(ms, CurrentAfter(env, s), DriftsAfter(env, s));
    }
  }
}
