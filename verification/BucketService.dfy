/** What a limiter owes its callers: when a request must be allowed, and what a refusal proves. */
module BucketService {
  import opened TokenBucket
  import opened RateLimiters

  /** Requests of the key granted from the i-th event on. */
  function GrantedSince(p: Params, m: Buckets, evs: seq<Event>, key: string, i: nat): int
    requires i <= |evs|
  {
    Granted(p, m, evs, key) - Granted(p, m, evs[..i], key)
  }

  /** When the i-th event comes; past the last one, t. */
  function TimeAt(evs: seq<Event>, i: nat, t: real): real
    requires i <= |evs|
  {
    if i < |evs| then evs[i].t else t
  }

  /** The key was never seen, or has idled for a full refill. */
  ghost predicate Rested(p: Params, m: Buckets, key: string, t: real) {
    key !in m || p.gain(t) - p.gain(m[key].at) >= p.cap
  }

  /** What is left at t of a bucket that was full when the i-th event came. */
  ghost predicate LeftSince(p: Params, m: Buckets, evs: seq<Event>, key: string, t: real, i: nat) {
    i <= |evs|
    && Level(p, Run(p, m, evs), key, t)
       == p.cap + (p.gain(t) - p.gain(TimeAt(evs, i, t))) - GrantedSince(p, m, evs, key, i) as real
  }

  /** Waiting adds exactly the gain, up to the brim. */
  lemma {:induction false} Waits(p: Params, m: Buckets, key: string, t: real, u: real)
    requires Proper(p) && SaneAt(p, m, t) && t <= u
    ensures Level(p, m, key, u) == Min(p.cap, Level(p, m, key, t) + (p.gain(u) - p.gain(t)))
  {
    assert p.gain(t) <= p.gain(u);
  }

  /** One event, then waiting until t. */
  lemma {:induction false} StepWaits(p: Params, r: Buckets, e: Event, key: string, t: real)
    requires Proper(p) && SaneAt(p, r, e.t) && (e.Sweep? ==> IdleRefills(p, e.maxIdle)) && e.t <= t
    ensures Level(p, Step(p, r, e), key, t)
            == Min(p.cap, Level(p, r, key, e.t) - Cost(p, r, e, key) + (p.gain(t) - p.gain(e.t)))
  {
    if e.Ask? {
      LevelAfterRequest(p, r, e.key, e.t, key);
      Waits(p, Step(p, r, e), key, e.t, t);
    } else {
      ReapAlike(p, r, e.t, e.maxIdle);
      assert Level(p, r, key, t) == Level(p, Step(p, r, e), key, t);
      Waits(p, r, key, e.t, t);
    }
  }

  lemma {:induction false} GrantedSnoc(p: Params, m: Buckets, evs: seq<Event>, key: string, i: nat)
    requires evs != [] && i < |evs|
    ensures var n := |evs| - 1;
            GrantedSince(p, m, evs, key, i) as real
            == GrantedSince(p, m, evs[..n], key, i) as real + Cost(p, Run(p, m, evs[..n]), evs[n], key)
  {
    assert evs[..|evs| - 1][..i] == evs[..i];
  }

  /** The bucket of a key rested at t0 holds, at any later t, exactly what has come in since it was last full, less what
      was granted since then. */
  lemma {:induction false} LastFull(p: Params, m: Buckets, evs: seq<Event>, key: string, t0: real, t: real)
    returns (i: nat)
    requires Proper(p) && SaneAt(p, m, t0) && InOrder(evs, t0, t) && GentleSweeps(p, evs) && Rested(p, m, key, t0)
    ensures LeftSince(p, m, evs, key, t, i)
  {
    if evs == [] {
      i := 0;
      Waits(p, m, key, t0, t);
    } else {
      var n := |evs| - 1;
      var r, e := Run(p, m, evs[..n]), evs[n];
      i := LastFull(p, m, evs[..n], key, t0, e.t);
      RunSane(p, m, evs[..n], t0, e.t);
      StepWaits(p, r, e, key, t);
      if Level(p, Run(p, m, evs), key, t) == p.cap {
        i := |evs|;
        assert evs[..|evs|] == evs;
      } else {
        GrantedSnoc(p, m, evs, key, i);
        assert TimeAt(evs[..n], i, e.t) == TimeAt(evs, i, t);
      }
    }
  }

  /** A refusal at t proves that in some window ending at t more was granted than all but one of a full bucket
      and what the window brought. */
  lemma {:induction false} RefusalMeans(p: Params, m: Buckets, evs: seq<Event>, key: string, t0: real, t: real)
    returns (i: nat)
    requires Proper(p) && SaneAt(p, m, t0) && InOrder(evs, t0, t) && GentleSweeps(p, evs) && Rested(p, m, key, t0)
    requires !Request(p, Run(p, m, evs), key, t).1
    ensures i <= |evs|
    ensures GrantedSince(p, m, evs, key, i) as real > p.cap - 1.0 + (p.gain(t) - p.gain(TimeAt(evs, i, t)))
  {
    i := LastFull(p, m, evs, key, t0, t);
  }

  // ---- bursts ----

  /** How often the key asks. */
  function Asks(evs: seq<Event>, key: string): nat {
    if evs == [] then 0
    else Asks(evs[..|evs| - 1], key) + if evs[|evs| - 1].Ask? && evs[|evs| - 1].key == key then 1 else 0
  }

  lemma {:induction false} GrantedAtMostAsked(p: Params, m: Buckets, evs: seq<Event>, key: string, i: nat)
    requires i <= |evs|
    ensures 0 <= GrantedSince(p, m, evs, key, i) <= Asks(evs, key)
  {
    if i == |evs| {
      assert evs[..i] == evs;
    } else {
      GrantedAtMostAsked(p, m, evs[..|evs| - 1], key, i);
      GrantedSnoc(p, m, evs, key, i);
    }
  }

  lemma {:induction false} TimeGoesOn(evs: seq<Event>, t0: real, t: real, i: nat)
    requires InOrder(evs, t0, t) && i <= |evs|
    ensures TimeAt(evs, i, t) <= t
  {
    if i < |evs| - 1 {
      TimeGoesOn(evs[..|evs| - 1], t0, evs[|evs| - 1].t, i);
    }
  }

  /** A rested key is allowed as long as it has asked fewer than cap times since. */
  lemma {:induction false} BurstAllowed(p: Params, m: Buckets, evs: seq<Event>, key: string, t0: real, t: real)
    requires Proper(p) && SaneAt(p, m, t0) && InOrder(evs, t0, t) && GentleSweeps(p, evs)
    requires Rested(p, m, key, t0)
    requires Asks(evs, key) as real <= p.cap - 1.0
    ensures Request(p, Run(p, m, evs), key, t).1
  {
    if !Request(p, Run(p, m, evs), key, t).1 {
      var i := RefusalMeans(p, m, evs, key, t0, t);
      GrantedAtMostAsked(p, m, evs, key, i);
      TimeGoesOn(evs, t0, t, i);
    }
  }

  // ---- pace ----

  /** Each time the key asks, the last of them at t, the time since it asked before has brought one request. */
  ghost predicate Paced(p: Params, evs: seq<Event>, key: string, t: real) {
    evs != [] ==>
      var e := evs[|evs| - 1];
      if e.Ask? && e.key == key then p.gain(t) - p.gain(e.t) >= 1.0 && Paced(p, evs[..|evs| - 1], key, e.t)
      else Paced(p, evs[..|evs| - 1], key, t)
  }

  /** A rested key that asks no faster than its bucket refills finds it full every time. */
  lemma {:induction false} PacedFull(p: Params, m: Buckets, evs: seq<Event>, key: string, t0: real, t: real, u: real)
    requires Proper(p) && SaneAt(p, m, t0) && InOrder(evs, t0, t) && GentleSweeps(p, evs) && Rested(p, m, key, t0)
    requires t <= u && Paced(p, evs, key, u)
    ensures Level(p, Run(p, m, evs), key, t) + (p.gain(u) - p.gain(t)) >= p.cap
  {
    assert p.gain(t) <= p.gain(u);
    if evs == [] {
      Waits(p, m, key, t0, t);
    } else {
      var n := |evs| - 1;
      var r, e := Run(p, m, evs[..n]), evs[n];
      RunSane(p, m, evs[..n], t0, e.t);
      StepWaits(p, r, e, key, t);
      assert p.gain(e.t) <= p.gain(t);
      if e.Ask? && e.key == key {
        PacedFull(p, m, evs[..n], key, t0, e.t, e.t);
      } else {
        PacedFull(p, m, evs[..n], key, t0, e.t, u);
      }
    }
  }

  /** So it is never refused. */
  lemma {:induction false} PacedAllowed(p: Params, m: Buckets, evs: seq<Event>, key: string, t0: real, t: real)
    requires Proper(p) && SaneAt(p, m, t0) && InOrder(evs, t0, t) && GentleSweeps(p, evs) && p.cap >= 1.0
    requires Rested(p, m, key, t0)
    requires Paced(p, evs, key, t)
    ensures Request(p, Run(p, m, evs), key, t).1
  {
    PacedFull(p, m, evs, key, t0, t, t);
  }

  // ---- the two limiters ----

  /** Any two consecutive requests of the key, the last of them at t, are at least gap seconds apart. */
  ghost predicate SpacedBy(evs: seq<Event>, key: string, t: real, gap: real) {
    evs != [] ==>
      var e := evs[|evs| - 1];
      if e.Ask? && e.key == key then t - e.t >= gap && SpacedBy(evs[..|evs| - 1], key, e.t, gap)
      else SpacedBy(evs[..|evs| - 1], key, t, gap)
  }

  lemma {:induction false} SpacedIsPaced(cap: real, rate: real, evs: seq<Event>, key: string, t: real, gap: real)
    requires rate >= 0.0 && gap * rate >= 1.0 && SpacedBy(evs, key, t, gap)
    ensures Paced(Linear(cap, rate), evs, key, t)
  {
    if evs != [] {
      var e := evs[|evs| - 1];
      if e.Ask? && e.key == key {
        SpacedIsPaced(cap, rate, evs[..|evs| - 1], key, e.t, gap);
        assert (t - e.t) * rate >= gap * rate;
        assert t * rate - e.t * rate == (t - e.t) * rate;
      } else {
        SpacedIsPaced(cap, rate, evs[..|evs| - 1], key, t, gap);
      }
    }
  }

  /** The key is new, or has not asked for this many seconds. */
  ghost predicate IdleFor(m: Buckets, key: string, t: real, seconds: real) {
    key !in m || t - m[key].at >= seconds
  }

  lemma {:induction false} IdleRested(cap: real, rate: real, m: Buckets, key: string, t: real, seconds: real)
    requires rate >= 0.0 && seconds * rate >= cap && IdleFor(m, key, t, seconds)
    ensures Rested(Linear(cap, rate), m, key, t)
  {
    if key in m {
      var at := m[key].at;
      assert (t - at) * rate >= seconds * rate;
      assert t * rate - at * rate == (t - at) * rate;
    }
  }

  /** A limiter of n per minute allows a key that is new, or has idled for a minute, its next n requests, and all
      of them as long as they are 60 / n seconds apart. */
  lemma {:induction false} LimiterAllows(n: int, m: Buckets, evs: seq<Event>, key: string, t0: real, t: real)
    requires n >= 1 && SaneAt(PerMinute(n), m, t0) && InOrder(evs, t0, t) && SweepsIdle(evs, 60.0)
    requires IdleFor(m, key, t0, 60.0) && (Asks(evs, key) < n || SpacedBy(evs, key, t, 60.0 / n as real))
    ensures Request(PerMinute(n), Run(PerMinute(n), m, evs), key, t).1
  {
    var rate := n as real / 60.0;
    PerMinuteProper(n);
    Gentle(PerMinute(n), evs, 60.0);
    IdleRested(n as real, rate, m, key, t0, 60.0);
    if Asks(evs, key) < n {
      BurstAllowed(PerMinute(n), m, evs, key, t0, t);
    } else {
      assert 60.0 / n as real * rate == 1.0;
      SpacedIsPaced(n as real, rate, evs, key, t, 60.0 / n as real);
      PacedAllowed(PerMinute(n), m, evs, key, t0, t);
    }
  }

  /** The probe allows a host that is new, or has idled for ten seconds, its next ten requests, and all of them as
      long as they are a second apart. */
  lemma {:induction false} ProbeAllows(m: Buckets, evs: seq<Event>, host: string, t0: real, t: real)
    requires SaneAt(PROBE, m, t0) && InOrder(evs, t0, t) && SweepsIdle(evs, 300.0)
    requires IdleFor(m, host, t0, 10.0) && (Asks(evs, host) < 10 || SpacedBy(evs, host, t, 1.0))
    ensures Request(PROBE, Run(PROBE, m, evs), host, t).1
  {
    LinearProper(10.0, 1.0);
    LinearRefills(10.0, 1.0, 300.0);
    Gentle(PROBE, evs, 300.0);
    IdleRested(10.0, 1.0, m, host, t0, 10.0);
    if Asks(evs, host) < 10 {
      BurstAllowed(PROBE, m, evs, host, t0, t);
    } else {
      SpacedIsPaced(10.0, 1.0, evs, host, t, 1.0);
      PacedAllowed(PROBE, m, evs, host, t0, t);
    }
  }
}
