/** Fail-closed liveness over runs of the agent: when the peers are dropped, exactly. */
module AgentLiveness {
  import opened Base
  import opened Wire
  import opened Signing
  import opened DeviceState
  import opened AgentRuns
  import L = Liveness

  /** In state t, e marks liveness: a push that is applied, or a heartbeat for the applied generation. */
  predicate Marks(env: Env, t: State, e: Event) {
    match e
    case PushArrives(p, now, finished, addOk) => HandlePush(env, t, p, now, finished, addOk).1 == Applied
    case AckArrives(generation, now) => generation == t.generation
    case _ => false
  }

  function MarkTime(e: Event): Time {
    if e.PushArrives? then e.finished else e.now
  }

  predicate MarksAt(env: Env, s: State, evs: seq<Event>, i: nat)
    requires i < |evs|
  {
    Marks(env, Run(env, s, evs[..i]), evs[i])
  }

  /** Event i of the run drops the peers. */
  predicate Drops(env: Env, s: State, evs: seq<Event>, i: nat)
    requires i < |evs|
  {
    evs[i].LivenessCheck? && var t := Run(env, s, evs[..i]); L.Check(t.live, t.appliedAt, evs[i].now).1
  }

  /** What the timer reads. */
  datatype Watch = Watch(live: L.Live, lastAppliedAt: Time)

  function WatchOf(s: State): Watch {
    Watch(s.live, s.appliedAt)
  }

  function WatchAt(env: Env, s: State, evs: seq<Event>, i: nat): Watch
    requires i <= |evs|
  {
    WatchOf(Run(env, s, evs[..i]))
  }

  lemma {:induction false} PushMarks(env: Env, s: State, p: Push, now: Time, finished: Time, addOk: AddOk)
    ensures var (s', verdict) := HandlePush(env, s, p, now, finished, addOk);
            if verdict == Applied then s'.live == L.Mark(s.live, finished, true) && s'.appliedAt == now
            else s'.live == s.live && s'.appliedAt == s.appliedAt
  {
  }

  lemma {:induction false} ProvisionKeepsWatch(env: Env, s: State, e: Event)
    requires e.ProvisionArrives?
    ensures WatchOf(Step(env, s, e)) == WatchOf(s)
  {
    ProvisionStep(env, s, e);
  }

  /** What an event does to the timer. */
  lemma {:induction false} WatchStep(env: Env, s: State, e: Event)
    ensures var w, w' := WatchOf(s), WatchOf(Step(env, s, e));
            if Marks(env, s, e) then w'
                == Watch(L.Mark(w.live, MarkTime(e), e.PushArrives?), if e.PushArrives? then e.now else w.lastAppliedAt)
            else if e.LivenessCheck? then w' == w.(live := L.Check(w.live, w.lastAppliedAt, e.now).0)
            else w' == w
  {
    match e
    case PushArrives(p, now, finished, addOk) => PushMarks(env, s, p, now, finished, addOk);
    case ProvisionArrives(req, now, added) => ProvisionKeepsWatch(env, s, e);
    case _ =>
  }

  lemma {:induction false} WatchStepAt(env: Env, s: State, evs: seq<Event>, i: nat)
    requires i < |evs|
    ensures var w, w', e := WatchAt(env, s, evs, i), WatchAt(env, s, evs, i + 1), evs[i];
            if MarksAt(env, s, evs, i)
                then w' == Watch(L.Mark(w.live, MarkTime(e), e.PushArrives?), if e.PushArrives? then e.now
                                 else w.lastAppliedAt)
            else if e.LivenessCheck? then w' == w.(live := L.Check(w.live, w.lastAppliedAt, e.now).0)
            else w' == w
  {
    RunStep(env, s, evs, i);
    WatchStep(env, Run(env, s, evs[..i]), evs[i]);
  }

  ghost predicate NoMarksIn(env: Env, s: State, evs: seq<Event>, i: nat, j: nat)
    requires j <= |evs|
  {
    forall k :: i <= k < j ==> !MarksAt(env, s, evs, k)
  }

  lemma {:induction false} ClosedUntilMark(env: Env, s: State, evs: seq<Event>, i: nat, j: nat)
    requires i <= j <= |evs| && WatchAt(env, s, evs, i).live.failClosed && NoMarksIn(env, s, evs, i, j)
    ensures WatchAt(env, s, evs, j).live.failClosed
  {
    if i < j {
      ClosedUntilMark(env, s, evs, i, j - 1);
      WatchStepAt(env, s, evs, j - 1);
    }
  }

  /** In any run, between two drops of the peers there is a liveness mark. */
  lemma {:induction false} DropsOncePerMark(env: Env, s: State, evs: seq<Event>, i: nat, j: nat)
    requires i < j < |evs| && Drops(env, s, evs, i) && Drops(env, s, evs, j)
    ensures exists k :: i < k < j && MarksAt(env, s, evs, k)
  {
    WatchStepAt(env, s, evs, i);
    if NoMarksIn(env, s, evs, i + 1, j) {
      ClosedUntilMark(env, s, evs, i + 1, j);
    }
  }

  /** A check in the run later than the bound after time t. */
  predicate LateCheck(evs: seq<Event>, k: nat, t: Time)
    requires k < |evs|
  {
    evs[k].LivenessCheck? && evs[k].now - t > 30 * 60 * 1_000_000_000
  }

  predicate SomeLate(evs: seq<Event>, m: nat, j: nat, t: Time)
    requires j <= |evs|
  {
    exists k :: m < k < j && LateCheck(evs, k, t)
  }

  /** The timer at j, given a mark at m and time t and none since. */
  ghost predicate Running(l: L.Live, evs: seq<Event>, m: nat, j: nat, t: Time)
    requires j <= |evs|
  {
    l.appliedOnce && l.last == t && (l.failClosed <==> SomeLate(evs, m, j, t))
  }

  lemma {:induction false} KeepsRunning(l: L.Live, disk: Time, evs: seq<Event>, m: nat, j: nat, t: Time)
    requires m < j < |evs| && t != 0 && Running(l, evs, m, j, t)
    ensures Running(if evs[j].LivenessCheck? then L.Check(l, disk, evs[j].now).0 else l, evs, m, j + 1, t)
  {
    if SomeLate(evs, m, j, t) {
      var k :| m < k < j && LateCheck(evs, k, t);
      assert m < k < j + 1;
    }
    assert LateCheck(evs, j, t) ==> SomeLate(evs, m, j + 1, t);
  }

  lemma {:induction false} MarkStarts(env: Env, s: State, evs: seq<Event>, m: nat)
    requires m < |evs| && MarksAt(env, s, evs, m) && WatchAt(env, s, evs, m + 1).live.appliedOnce
    ensures Running(WatchAt(env, s, evs, m + 1).live, evs, m, m + 1, MarkTime(evs[m]))
  {
    WatchStepAt(env, s, evs, m);
  }

  lemma {:induction false} NextRunning(env: Env, s: State, evs: seq<Event>, m: nat, j: nat, t: Time)
    requires m < j < |evs| && t != 0 && !MarksAt(env, s, evs, j) && Running(WatchAt(env, s, evs, j).live, evs, m, j, t)
    ensures Running(WatchAt(env, s, evs, j + 1).live, evs, m, j + 1, t)
  {
    WatchStepAt(env, s, evs, j);
    var w := WatchAt(env, s, evs, j);
    KeepsRunning(w.live, w.lastAppliedAt, evs, m, j, t);
  }

  lemma {:induction false} SinceMark(env: Env, s: State, evs: seq<Event>, m: nat, j: nat)
    requires m < j <= |evs| && MarksAt(env, s, evs, m) && NoMarksIn(env, s, evs, m + 1, j)
    requires MarkTime(evs[m]) != 0 && WatchAt(env, s, evs, m + 1).live.appliedOnce
    ensures Running(WatchAt(env, s, evs, j).live, evs, m, j, MarkTime(evs[m]))
  {
    if j == m + 1 {
      MarkStarts(env, s, evs, m);
    } else {
      SinceMark(env, s, evs, m, j - 1);
      NextRunning(env, s, evs, m, j - 1, MarkTime(evs[m]));
    }
  }

  /** In any run that has applied, a check drops the peers exactly when it is the first since the last
      mark to come more than 30 minutes after it. */
  lemma {:induction false} DropsExactly(env: Env, s: State, evs: seq<Event>, m: nat, i: nat)
    requires m < i < |evs| && MarksAt(env, s, evs, m) && NoMarksIn(env, s, evs, m + 1, i) && evs[i].LivenessCheck?
    requires MarkTime(evs[m]) != 0 && WatchAt(env, s, evs, m + 1).live.appliedOnce
    ensures Drops(env, s, evs, i) <==>
            LateCheck(evs, i, MarkTime(evs[m])) && !SomeLate(evs, m, i, MarkTime(evs[m]))
  {
    SinceMark(env, s, evs, m, i);
  }

  /** After a restart from a state applied at `disk`: a check that comes too late after that, though an
      earlier one was still in time, or though the cold-start timeout has passed. */
  predicate LateAfterBoot(evs: seq<Event>, i: nat, boot: Time, disk: Time)
    requires i < |evs|
  {
    LateCheck(evs, i, disk) && (InTimeBefore(evs, i, disk) || evs[i].now - boot > 90 * 1_000_000_000)
  }

  predicate InTimeBefore(evs: seq<Event>, i: nat, disk: Time)
    requires i <= |evs|
  {
    exists k :: 0 <= k < i && evs[k].LivenessCheck? && evs[k].now - disk <= 30 * 60 * 1_000_000_000
  }

  ghost predicate NoneLate(evs: seq<Event>, i: nat, boot: Time, disk: Time)
    requires i <= |evs|
  {
    forall k :: 0 <= k < i ==> !LateAfterBoot(evs, k, boot, disk)
  }

  /** The timer at j, given a restart and no mark since. */
  ghost predicate Booted(w: Watch, evs: seq<Event>, boot: Time, disk: Time, j: nat)
    requires j <= |evs|
  {
    && w.lastAppliedAt == disk && w.live.bootAt == boot
    && (w.live.failClosed <==> !NoneLate(evs, j, boot, disk))
    && (!w.live.failClosed ==>
        (w.live.appliedOnce <==> InTimeBefore(evs, j, disk)) && w.live.last == if w.live.appliedOnce then disk else 0)
  }

  lemma {:induction false} InTimeSnoc(evs: seq<Event>, j: nat, disk: Time)
    requires j < |evs|
    ensures InTimeBefore(evs, j + 1, disk) <==>
            InTimeBefore(evs, j, disk)
            || (evs[j].LivenessCheck? && evs[j].now - disk <= 30 * 60 * 1_000_000_000)
  {
  }

  lemma {:induction false} NoneLateSnoc(evs: seq<Event>, j: nat, boot: Time, disk: Time)
    requires j < |evs|
    ensures NoneLate(evs, j + 1, boot, disk) <==> NoneLate(evs, j, boot, disk) && !LateAfterBoot(evs, j, boot, disk)
  {
  }

  lemma {:induction false} KeepsBooted(w: Watch, evs: seq<Event>, boot: Time, disk: Time, j: nat)
    requires j < |evs| && disk != 0 && Booted(w, evs, boot, disk, j)
    ensures Booted(if evs[j].LivenessCheck? then w.(live := L.Check(w.live, disk, evs[j].now).0)
                   else w, evs, boot, disk, j + 1)
  {
    InTimeSnoc(evs, j, disk);
    NoneLateSnoc(evs, j, boot, disk);
  }

  lemma {:induction false} SinceBoot(env: Env, s: State, evs: seq<Event>, boot: Time, j: nat)
    requires s.live == L.Boot(boot) && s.appliedAt != 0 && j <= |evs| && NoMarksIn(env, s, evs, 0, j)
    ensures Booted(WatchAt(env, s, evs, j), evs, boot, s.appliedAt, j)
  {
    if j == 0 {
      assert evs[..0] == [];
    } else {
      SinceBoot(env, s, evs, boot, j - 1);
      WatchStepAt(env, s, evs, j - 1);
      KeepsBooted(WatchAt(env, s, evs, j - 1), evs, boot, s.appliedAt, j - 1);
    }
  }

  /** In a run that starts from a state on disk, until the first mark: a check drops the peers exactly
      when it is the first late one. So a recent state keeps the peers for the rest of its 30 minutes,
      and an old one only for the cold-start timeout. */
  lemma {:induction false} DropsExactlyAfterBoot(env: Env, s: State, evs: seq<Event>, boot: Time, i: nat)
    requires s.live == L.Boot(boot) && s.appliedAt != 0 && i < |evs| && NoMarksIn(env, s, evs, 0, i)
             && evs[i].LivenessCheck?
    ensures Drops(env, s, evs, i) <==> LateAfterBoot(evs, i, boot, s.appliedAt) && NoneLate(evs, i, boot, s.appliedAt)
  {
    SinceBoot(env, s, evs, boot, i);
  }

  // ---- before anything was applied ----

  /** Every mark and check of the run is at a real time, never Go's zero time. */
  ghost predicate RealTimes(evs: seq<Event>) {
    forall i :: 0 <= i < |evs| ==> evs[i].now != 0 && MarkTime(evs[i]) != 0
  }

  /** In every state a restarted agent reaches, having applied implies a recorded liveness time. */
  lemma {:induction false} AppliedHasTime(env: Env, s: State, evs: seq<Event>, boot: Time, i: nat)
    requires s.live == L.Boot(boot) && RealTimes(evs) && i <= |evs|
    ensures var l := WatchAt(env, s, evs, i).live; l.appliedOnce ==> l.last != 0
  {
    if i == 0 {
      assert evs[..0] == [];
    } else {
      AppliedHasTime(env, s, evs, boot, i - 1);
      WatchStepAt(env, s, evs, i - 1);
    }
  }

  ghost predicate NothingApplied(env: Env, s: State, evs: seq<Event>, i: nat)
    requires i <= |evs|
  {
    forall k :: 0 <= k < i ==> !(evs[k].PushArrives? && MarksAt(env, s, evs, k))
  }

  lemma {:induction false} StillCold(env: Env, s: State, evs: seq<Event>, boot: Time, i: nat)
    requires s.live == L.Boot(boot) && s.appliedAt == 0 && i <= |evs| && NothingApplied(env, s, evs, i)
    ensures var w := WatchAt(env, s, evs, i); w.lastAppliedAt == 0 && !w.live.appliedOnce && w.live.bootAt == boot
  {
    if i == 0 {
      assert evs[..0] == [];
    } else {
      StillCold(env, s, evs, boot, i - 1);
      WatchStepAt(env, s, evs, i - 1);
    }
  }

  /** With no state on disk and nothing applied yet, a check of peers not yet dropped drops them exactly
      past the cold-start timeout, however fresh the heartbeats are. */
  lemma {:induction false} ColdStart(env: Env, s: State, evs: seq<Event>, boot: Time, i: nat)
    requires s.live == L.Boot(boot) && s.appliedAt == 0 && i < |evs| && NothingApplied(env, s, evs, i)
             && evs[i].LivenessCheck?
    ensures Drops(env, s, evs, i) <==>
            !WatchAt(env, s, evs, i).live.failClosed && evs[i].now - boot > 90 * 1_000_000_000
  {
    StillCold(env, s, evs, boot, i);
  }
}
