/** The two limiters: tokens counted down (SMTP and forward-auth), and fill counted up (probe). */
module RateLimiters {
  import opened TokenBucket

  /** tokens refill linearly, perMinute a minute, up to perMinute. */
  class Limiter {
    const perMinute: int
    var buckets: map<string, (real, real)>   // tokens, last fill

    function Limits(): Params {
      PerMinute(perMinute)
    }

    function View(): Buckets
      reads this
    {
      map k | k in buckets :: Bucket(buckets[k].0, buckets[k].1)
    }

    constructor (perMinute: int)
      ensures View() == map[] && this.perMinute >= 1
      ensures this.perMinute == if perMinute <= 0 then 5 else perMinute
    {
      this.perMinute := if perMinute <= 0 then 5 else perMinute;
      buckets := map[];
    }

    method Allow(key: string, now: real) returns (ok: bool)
      modifies this
      ensures (View(), ok) == Request(Limits(), old(View()), key, now)
    {
      var tokens := perMinute as real;
      if key in buckets {
        var elapsed := now - buckets[key].1;
        tokens := buckets[key].0 + elapsed * (perMinute as real / 60.0);
        if tokens > perMinute as real {
          tokens := perMinute as real;
        }
      }
      ghost var before := View();
      LevelIs(perMinute, before, key, now);
      assert tokens == Level(Limits(), before, key, now);
      ok := !(tokens < 1.0);
      buckets := buckets[key := (if ok then tokens - 1.0 else tokens, now)];
      assert View() == before[key := Bucket(if ok then tokens - 1.0 else tokens, now)];
    }

    method Sweep(now: real, maxIdle: real)
      modifies this
      ensures View() == Reap(old(View()), now, maxIdle)
    {
      ghost var was := buckets;
      var todo := buckets.Keys;
      while todo != {}
        invariant todo <= was.Keys && buckets.Keys <= was.Keys
        invariant forall k :: k in buckets ==> buckets[k] == was[k]
        invariant forall k :: k in todo ==> k in buckets
        invariant forall k :: k in was && k !in todo ==> (k in buckets <==> !(now - was[k].1 > maxIdle))
        decreases |todo|
      {
        var k :| k in todo;
        todo := todo - {k};
        if now - buckets[k].1 > maxIdle {
          buckets := buckets - {k};
        }
      }
    }
  }

  /** Linear refill. */
  function Linear(cap: real, rate: real): Params {
    Params(cap, (t: real) => t * rate)
  }

  function PerMinute(n: int): Params {
    Linear(n as real, n as real / 60.0)
  }

  /** The source's way of writing the refill. */
  lemma {:induction false} LevelIs(n: int, m: Buckets, key: string, now: real)
    ensures key in m ==>
              Level(PerMinute(n), m, key, now) == Min(n as real, m[key].level + (now - m[key].at) * (n as real / 60.0))
  {
    if key in m {
      var rate := n as real / 60.0;
      assert now * rate - m[key].at * rate == (now - m[key].at) * rate;
    }
  }

  lemma {:induction false} LinearProper(cap: real, rate: real)
    requires cap >= 0.0 && rate >= 0.0
    ensures Proper(Linear(cap, rate))
  {
  }

  /** Idling long enough to regain the whole bucket refills it. */
  lemma {:induction false} LinearRefills(cap: real, rate: real, maxIdle: real)
    requires rate >= 0.0 && maxIdle * rate >= cap
    ensures IdleRefills(Linear(cap, rate), maxIdle)
  {
  }

  lemma {:induction false} PerMinuteProper(n: int)
    requires n >= 1
    ensures Proper(PerMinute(n)) && IdleRefills(PerMinute(n), 60.0)
  {
  }

  /** The probe's leaky bucket: capacity 10, leaking one per second. */
  const PROBE := Linear(10.0, 1.0)

  class ProbeLimiter {
    var buckets: map<string, (real, real)>   // fill, updated at

    function View(): Buckets
      reads this
    {
      map k | k in buckets :: Bucket(10.0 - buckets[k].0, buckets[k].1)
    }

    constructor ()
      ensures View() == map[]
    {
      buckets := map[];
    }

    /** A clock that went back counts as no time passed. */
    method Allow(host: string, clock: real) returns (ok: bool)
      modifies this
      ensures var now := if host in old(View()) && clock < old(View())[host].at then old(View())[host].at else clock;
              var (m, allowed) := Request(PROBE, old(View()), host, now);
              ok == allowed && View() == m[host := Bucket(m[host].level, clock)]
    {
      ghost var before := View();
      var fill := 0.0;
      if host in buckets {
        var elapsed := clock - buckets[host].1;
        if elapsed < 0.0 {
          elapsed := 0.0;
        }
        fill := buckets[host].0 - elapsed;
        if fill < 0.0 {
          fill := 0.0;
        }
      }
      ok := !(fill + 1.0 > 10.0);
      buckets := buckets[host := (if ok then fill + 1.0 else fill, clock)];
      assert View() == before[host := Bucket(10.0 - (if ok then fill + 1.0 else fill), clock)];
    }

    /** reapBuckets: five minutes idle. */
    method Sweep(now: real)
      modifies this
      ensures View() == Reap(old(View()), now, 300.0)
    {
      ghost var was := buckets;
      var todo := buckets.Keys;
      while todo != {}
        invariant todo <= was.Keys && buckets.Keys <= was.Keys
        invariant forall k :: k in buckets ==> buckets[k] == was[k]
        invariant forall k :: k in todo ==> k in buckets
        invariant forall k :: k in was && k !in todo ==> (k in buckets <==> !(now - was[k].1 > 300.0))
        decreases |todo|
      {
        var k :| k in todo;
        todo := todo - {k};
        if now - buckets[k].1 > 300.0 {
          buckets := buckets - {k};
        }
      }
    }
  }

  ghost predicate SweepsIdle(evs: seq<Event>, atLeast: real) {
    forall i :: 0 <= i < |evs| && evs[i].Sweep? ==> evs[i].maxIdle >= atLeast
  }

  lemma {:induction false} Gentle(p: Params, evs: seq<Event>, atLeast: real)
    requires IdleRefills(p, atLeast) && SweepsIdle(evs, atLeast)
    ensures GentleSweeps(p, evs)
  {
    if evs != [] {
      Gentle(p, evs[..|evs| - 1], atLeast);
    }
  }

  /** So the probe grants a host at most 10 + T requests in T seconds, swept or not. */
  lemma {:induction false} ProbeBound(m: Buckets, evs: seq<Event>, host: string, t0: real, t: real)
    requires SaneAt(PROBE, m, t0) && InOrder(evs, t0, t) && SweepsIdle(evs, 300.0)
    ensures Granted(PROBE, m, evs, host) as real <= 10.0 + (t - t0)
  {
    LinearProper(10.0, 1.0);
    LinearRefills(10.0, 1.0, 300.0);
    Gentle(PROBE, evs, 300.0);
    WindowBound(PROBE, m, evs, host, t0, t);
    assert PROBE.gain(t) == t && PROBE.gain(t0) == t0;
  }

  /** And a limiter of n per minute, swept of buckets idle for a minute or more, at most n + n * T / 60. */
  lemma {:induction false} LimiterBound(n: int, m: Buckets, evs: seq<Event>, key: string, t0: real, t: real)
    requires n >= 1 && SaneAt(PerMinute(n), m, t0) && InOrder(evs, t0, t) && SweepsIdle(evs, 60.0)
    ensures Granted(PerMinute(n), m, evs, key) as real <= n as real + (t - t0) * (n as real / 60.0)
  {
    PerMinuteProper(n);
    Gentle(PerMinute(n), evs, 60.0);
    WindowBound(PerMinute(n), m, evs, key, t0, t);
    OrderSpans(evs, t0, t);
    PerMinuteGain(n, t0, t);
  }

  lemma {:induction false} PerMinuteGain(n: int, t0: real, t: real)
    requires n >= 1 && t0 <= t
    ensures PerMinute(n).cap == n as real
            && PerMinute(n).gain(t) - PerMinute(n).gain(t0) == (t - t0) * (n as real / 60.0)
  {
  }

  /** Nor does reaping after five minutes change a decision of the probe's. */
  lemma {:induction false} ProbeReapingInvisible(evs: seq<Event>, t0: real, host: string, t: real)
    requires InOrder(evs, t0, t) && SweepsIdle(evs, 300.0)
    ensures Request(PROBE, Run(PROBE, map[], evs), host, t).1
            == Request(PROBE, Run(PROBE, map[], WithoutSweeps(evs)), host, t).1
  {
    LinearProper(10.0, 1.0);
    LinearRefills(10.0, 1.0, 300.0);
    Gentle(PROBE, evs, 300.0);
    ReapingInvisible(PROBE, evs, t0, host, t);
  }

  /** Reaping buckets idle for a minute or more changes no decision of a limiter, ever. */
  lemma {:induction false} LimiterReapingInvisible(n: int, evs: seq<Event>, t0: real, key: string, t: real)
    requires n >= 1 && InOrder(evs, t0, t) && SweepsIdle(evs, 60.0)
    ensures Request(PerMinute(n), Run(PerMinute(n), map[], evs), key, t).1
            == Request(PerMinute(n), Run(PerMinute(n), map[], WithoutSweeps(evs)), key, t).1
  {
    PerMinuteProper(n);
    Gentle(PerMinute(n), evs, 60.0);
    ReapingInvisible(PerMinute(n), evs, t0, key, t);
  }
}
