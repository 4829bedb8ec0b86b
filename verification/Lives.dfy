/** The whole life of an agent: events, and restarts between them. */
module Lives {
  import opened Base
  import opened Prefixes
  import opened Addresses
  import opened Allocator
  import opened Signing
  import opened DeviceState
  import opened Addressing
  import opened Peering
  import opened Membership
  import opened SavedAcl
  import opened Restarts
  import R = AgentRuns

  /** Something arrives, or the agent restarts: with the allocator it loads, when, and which peers install. */
  datatype Moment =
    | Happens(e: R.Event)
    | Reboots(b: Alloc, boot: Time, addOk: AddOk)

  function Next(env: Env, s: State, m: Moment): State {
    match m
    case Happens(e) => R.Step(env, s, e)
    case Reboots(b, boot, addOk) => Restart(env, s, b, boot, addOk)
  }

  function Life(env: Env, s: State, ms: seq<Moment>): State {
    if ms == [] then s else Next(env, Life(env, s, ms[..|ms| - 1]), ms[|ms| - 1])
  }

  /** Every restart loads some allocation file, however old, on the agent's own subnet. */
  ghost predicate Feasible(env: Env, s: State, ms: seq<Moment>) {
    forall i :: 0 <= i < |ms| && ms[i].Reboots? ==> LoadedOn(Life(env, s, ms[..i]).alloc, ms[i].b)
  }

  /** The two moments that break the agreement of ACL and allocator: a rollback onto a namesake, and a
      restart from an allocation file that gives an address in the ACL file to another key. */
  ghost predicate Breaks(env: Env, s: State, m: Moment) {
    match m
    case Happens(e) => R.LeavesNamesake(env, s, e)
    case Reboots(b, boot, addOk) => !NobodyStolen(b, s.saved)
  }

  ghost predicate LeavesPeer(env: Env, s: State, m: Moment) {
    m.Happens? && R.LeavesPeer(env, s, m.e)
  }

  ghost function AgreesAfter(env: Env, s: State): seq<Moment> -> bool {
    (ms: seq<Moment>) => Agreement(env, Life(env, s, ms))
  }

  ghost function PeersAgreeAfter(env: Env, s: State): seq<Moment> -> bool {
    (ms: seq<Moment>) => PeersAgree(Life(env, s, ms))
  }

  ghost function BackedAfter(env: Env, s: State): seq<Moment> -> bool {
    (ms: seq<Moment>) => Backed(env, Life(env, s, ms))
  }

  ghost function GenerationAfter(env: Env, s: State): seq<Moment> -> int {
    (ms: seq<Moment>) => Life(env, s, ms).generation
  }

  ghost function BreaksAfter(env: Env, s: State): (seq<Moment>, Moment) -> bool {
    (ms: seq<Moment>, m: Moment) => Breaks(env, Life(env, s, ms), m)
  }

  ghost function LeavesPeerAfter(env: Env, s: State): (seq<Moment>, Moment) -> bool {
    (ms: seq<Moment>, m: Moment) => LeavesPeer(env, Life(env, s, ms), m)
  }

  // ---- one moment ----

  lemma {:induction false} NextTrusted(env: Env, owner: string, s: State, m: Moment)
    requires Trusted(env, owner, s) && R.AllocSound(s) && (m.Reboots? ==> LoadedOn(s.alloc, m.b))
    ensures Trusted(env, owner, Next(env, s, m)) && R.AllocSound(Next(env, s, m))
  {
    match m
    case Happens(e) => R.StepKeepsTrust(env, owner, s, e);
    case Reboots(b, boot, addOk) => RestartTrusted(env, owner, s, b, boot, addOk);
  }

  lemma {:induction false} NextAgreementIff(env: Env, owner: string, s: State, m: Moment)
    requires Trusted(env, owner, s) && Agreement(env, s) && Backed(env, s) && (m.Reboots? ==> LoadedOn(s.alloc, m.b))
    ensures Agreement(env, Next(env, s, m)) <==> !Breaks(env, s, m)
    ensures !Breaks(env, s, m) ==> Backed(env, Next(env, s, m))
  {
    match m
    case Happens(e) =>
      R.StepAgreementIff(env, s, e);
      if !Breaks(env, s, m) {
        StepBacked(env, s, e);
      }
    case Reboots(b, boot, addOk) =>
      RestartAgreementIff(env, owner, s, b, boot, addOk);
      if !Breaks(env, s, m) {
        SavedIsBacked(env, Next(env, s, m));
      }
  }

  lemma {:induction false} NextPeersIff(env: Env, owner: string, s: State, m: Moment)
    requires Trusted(env, owner, s) && Agreement(env, s) && Backed(env, s) && PeersAgree(s)
    requires (m.Reboots? ==> LoadedOn(s.alloc, m.b)) && !Breaks(env, s, m)
    ensures PeersAgree(Next(env, s, m)) <==> !LeavesPeer(env, s, m)
  {
    match m
    case Happens(e) => R.StepPeersIff(env, s, e);
    case Reboots(b, boot, addOk) => RestartMends(env, owner, s, b, boot, addOk);
  }

  lemma {:induction false} NextGeneration(env: Env, s: State, m: Moment)
    ensures Next(env, s, m).generation >= s.generation
  {
    if m.Happens? {
      R.StepGeneration(env, s, m.e);
    }
  }

  // ---- whole lives ----

  lemma {:induction false} LifeStep(env: Env, s: State, ms: seq<Moment>, i: nat)
    requires i < |ms|
    ensures Life(env, s, ms[..i + 1]) == Next(env, Life(env, s, ms[..i]), ms[i])
  {
    assert ms[..i + 1][..i] == ms[..i];
  }

  /** Whatever arrives and whatever files it restarts from, at every moment a paired agent's admins are
      the pinned owner and everyone else in its ACL was vetted (MemberWasVetted). */
  lemma {:induction false} LifeTrusted(env: Env, owner: string, s: State, ms: seq<Moment>, i: nat)
    requires Trusted(env, owner, s) && R.AllocSound(s) && Feasible(env, s, ms) && i <= |ms|
    ensures Trusted(env, owner, Life(env, s, ms[..i])) && R.AllocSound(Life(env, s, ms[..i]))
  {
    if i == 0 {
      assert ms[..0] == [];
    } else {
      LifeTrusted(env, owner, s, ms, i - 1);
      LifeStep(env, s, ms, i - 1);
      NextTrusted(env, owner, Life(env, s, ms[..i - 1]), ms[i - 1]);
    }
  }

  lemma {:induction false} AgreementAt(env: Env, owner: string, s: State, ms: seq<Moment>, i: nat)
    requires Trusted(env, owner, s) && R.AllocSound(s) && Feasible(env, s, ms)
    requires i < |ms| && Agreement(env, Life(env, s, ms[..i])) && Backed(env, Life(env, s, ms[..i]))
    ensures Agreement(env, Life(env, s, ms[..i + 1])) <==> !Breaks(env, Life(env, s, ms[..i]), ms[i])
    ensures !Breaks(env, Life(env, s, ms[..i]), ms[i]) ==> Backed(env, Life(env, s, ms[..i + 1]))
    ensures PeersAgree(Life(env, s, ms[..i])) && !Breaks(env, Life(env, s, ms[..i]), ms[i]) ==>
              (PeersAgree(Life(env, s, ms[..i + 1])) <==> !LeavesPeer(env, Life(env, s, ms[..i]), ms[i]))
  {
    var t := Life(env, s, ms[..i]);
    LifeStep(env, s, ms, i);
    LifeTrusted(env, owner, s, ms, i);
    NextAgreementIff(env, owner, t, ms[i]);
    if PeersAgree(t) && !Breaks(env, t, ms[i]) {
      NextPeersIff(env, owner, t, ms[i]);
    }
  }

  /** Through any number of restarts and events, every client holds exactly the address bound to its key at
      every moment, if and only if no moment is a rollback onto a namesake or a restart from an allocation
      file that gives an address in the ACL file to another key. Then the ACL file lists every client and
      agrees with some sound allocator at every moment as well. */
  lemma {:induction false} LifeAgreementIff(env: Env, owner: string, s: State, ms: seq<Moment>)
    requires Trusted(env, owner, s) && Agreement(env, s) && Backed(env, s) && Feasible(env, s, ms)
    ensures Throughout(ms, AgreesAfter(env, s)) <==> Harmless(ms, BreaksAfter(env, s))
    ensures Throughout(ms, AgreesAfter(env, s)) ==> Throughout(ms, BackedAfter(env, s))
  {
    forall i | 0 <= i < |ms| && Agreement(env, Life(env, s, ms[..i])) && Backed(env, Life(env, s, ms[..i]))
      ensures Agreement(env, Life(env, s, ms[..i + 1])) <==> !Breaks(env, Life(env, s, ms[..i]), ms[i])
      ensures !Breaks(env, Life(env, s, ms[..i]), ms[i]) ==> Backed(env, Life(env, s, ms[..i + 1]))
    {
      AgreementAt(env, owner, s, ms, i);
    }
    ThroughoutIffGiven(ms, AgreesAfter(env, s), BackedAfter(env, s), BreaksAfter(env, s));
  }

  /** The peers are ACL clients at their addresses as well if and only if in addition no moment is the
      rollback of a key that already is a peer. */
  lemma {:induction false} LifePeersIff(env: Env, owner: string, s: State, ms: seq<Moment>)
    requires Trusted(env, owner, s) && Agreement(env, s) && Backed(env, s) && PeersAgree(s) && Feasible(env, s, ms)
    ensures Throughout(ms, AgreesAfter(env, s)) && Throughout(ms, PeersAgreeAfter(env, s))
            <==> Harmless(ms, BreaksAfter(env, s)) && Harmless(ms, LeavesPeerAfter(env, s))
  {
    LifeAgreementIff(env, owner, s, ms);
    if Throughout(ms, AgreesAfter(env, s)) {
      forall i | 0 <= i < |ms| && PeersAgreeAfter(env, s)(ms[..i])
        ensures PeersAgreeAfter(env, s)(ms[..i + 1]) <==> !LeavesPeerAfter(env, s)(ms[..i], ms[i])
      {
        assert AgreesAfter(env, s)(ms[..i]) && BackedAfter(env, s)(ms[..i]) && !BreaksAfter(env, s)(ms[..i], ms[i]);
        AgreementAt(env, owner, s, ms, i);
      }
      ThroughoutIff(ms, PeersAgreeAfter(env, s), LeavesPeerAfter(env, s));
    }
  }

  /** Between any two moments of a life the applied generation has not gone down. */
  lemma {:induction false} LifeGeneration(env: Env, s: State, ms: seq<Moment>, i: nat, j: nat)
    requires i <= j <= |ms|
    ensures Life(env, s, ms[..i]).generation <= Life(env, s, ms[..j]).generation
  {
    forall k | 0 <= k < |ms|
      ensures GenerationAfter(env, s)(ms[..k]) <= GenerationAfter(env, s)(ms[..k + 1])
    {
      LifeStep(env, s, ms, k);
      NextGeneration(env, Life(env, s, ms[..k]), ms[k]);
    }
    Climbs(ms, GenerationAfter(env, s), i, j);
  }

  /** All of it for an agent fresh from pairing. */
  lemma {:induction false} LifeOfAgent(env: Env, owner: string, s: State, pin: string, ms: seq<Moment>)
    requires R.JustPaired(s, pin) && env.decodeKey(pin) == Some(owner) && Feasible(env, s, ms)
    ensures forall i :: 0 <= i <= |ms| ==> Trusted(env, owner, Life(env, s, ms[..i]))
    ensures forall i, j :: 0 <= i <= j <= |ms| ==> Life(env, s, ms[..i]).generation <= Life(env, s, ms[..j]).generation
    ensures Throughout(ms, AgreesAfter(env, s)) <==> Harmless(ms, BreaksAfter(env, s))
    ensures Throughout(ms, AgreesAfter(env, s)) ==> Throughout(ms, BackedAfter(env, s))
    ensures Throughout(ms, AgreesAfter(env, s)) && Throughout(ms, PeersAgreeAfter(env, s))
            <==> Harmless(ms, BreaksAfter(env, s)) && Harmless(ms, LeavesPeerAfter(env, s))
  {
    R.PairedReady(env, owner, s, pin);
    SavedIsBacked(env, s);
    forall i | 0 <= i <= |ms|
      ensures Trusted(env, owner, Life(env, s, ms[..i]))
    {
      LifeTrusted(env, owner, s, ms, i);
    }
    forall i, j | 0 <= i <= j <= |ms|
      ensures Life(env, s, ms[..i]).generation <= Life(env, s, ms[..j]).generation
    {
      LifeGeneration(env, s, ms, i, j);
    }
    LifeAgreementIff(env, owner, s, ms);
    LifePeersIff(env, owner, s, ms);
  }
}
