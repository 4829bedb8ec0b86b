/** Per-key rate limiting over real time: the bound in any window, and why reaping is harmless. */
module TokenBucket {

  /** A bucket holds at most `cap` requests; between s and t it regains gain(t) - gain(s) of them. */
  datatype Params = Params(cap: real, gain: real -> real)

  ghost predicate Proper(p: Params) {
    p.cap >= 0.0 && forall s, t :: s <= t ==> p.gain(s) <= p.gain(t)
  }

  datatype Bucket = Bucket(level: real, at: real)

  type Buckets = map<string, Bucket>

  function Min(x: real, y: real): real {
    if x < y then x else y
  }

  function Refill(p: Params, b: Bucket, t: real): real {
    Min(p.cap, b.level + (p.gain(t) - p.gain(b.at)))
  }

  /** What a key may still use at time t; a key never seen has a full bucket. */
  function Level(p: Params, m: Buckets, key: string, t: real): real {
    if key in m then Refill(p, m[key], t) else p.cap
  }

  function Request(p: Params, m: Buckets, key: string, t: real): (Buckets, bool) {
    var level := Level(p, m, key, t);
    if level < 1.0 then (m[key := Bucket(level, t)], false)
    else (m[key := Bucket(level - 1.0, t)], true)
  }

  function Reap(m: Buckets, now: real, maxIdle: real): Buckets {
    map k | k in m && !(now - m[k].at > maxIdle) :: m[k]
  }

  // ---- runs ----

  datatype Event = Ask(key: string, t: real) | Sweep(t: real, maxIdle: real)

  function Step(p: Params, m: Buckets, e: Event): Buckets {
    match e
    case Ask(key, t) => Request(p, m, key, t).0
    case Sweep(t, maxIdle) => Reap(m, t, maxIdle)
  }

  function Run(p: Params, m: Buckets, evs: seq<Event>): Buckets {
    if evs == [] then m else Step(p, Run(p, m, evs[..|evs| - 1]), evs[|evs| - 1])
  }

  predicate Allowed(p: Params, m: Buckets, e: Event) {
    e.Ask? && Request(p, m, e.key, e.t).1
  }

  /** How many requests of a key a run allows. */
  function Granted(p: Params, m: Buckets, evs: seq<Event>, key: string): nat {
    if evs == [] then 0
    else
      var n := |evs| - 1;
      Granted(p, m, evs[..n], key) + if evs[n].Ask? && evs[n].key == key
        && Allowed(p, Run(p, m, evs[..n]), evs[n]) then 1 else 0
  }

  /** Times do not go back, from t0 up to t. */
  ghost predicate InOrder(evs: seq<Event>, t0: real, t: real) {
    if evs == [] then t0 <= t
    else evs[|evs| - 1].t <= t && InOrder(evs[..|evs| - 1], t0, evs[|evs| - 1].t)
  }

  /** Every bucket was last touched by t, and holds between nothing and everything. */
  ghost predicate SaneAt(p: Params, m: Buckets, t: real) {
    forall k :: k in m ==> m[k].at <= t && 0.0 <= m[k].level <= p.cap
  }

  // ---- refilling ----

  /** A level rises by at most the gain, never falls by waiting, and stays within the bucket. */
  lemma {:induction false} LevelOverTime(p: Params, m: Buckets, key: string, t: real, u: real)
    requires Proper(p) && SaneAt(p, m, t) && t <= u
    ensures 0.0 <= Level(p, m, key, t) <= Level(p, m, key, u) <= Level(p, m, key, t) + (p.gain(u) - p.gain(t))
    ensures Level(p, m, key, u) <= p.cap
  {
  }

  /** Right after a request the bucket holds what it held, less one if it was allowed. */
  lemma {:induction false} LevelAfterRequest(p: Params, m: Buckets, key: string, t: real, k: string)
    requires Proper(p) && SaneAt(p, m, t)
    ensures var (m', ok) := Request(p, m, key, t);
            && SaneAt(p, m', t)
            && Level(p, m', k, t) == if k == key && ok then Level(p, m, k, t) - 1.0 else Level(p, m, k, t)
  {
  }

  // ---- reaping ----

  /** Waiting maxIdle refills any bucket. */
  ghost predicate IdleRefills(p: Params, maxIdle: real) {
    forall s, t :: t - s > maxIdle ==> p.gain(t) - p.gain(s) >= p.cap
  }

  /** Two states no later request can tell apart. */
  ghost predicate Alike(p: Params, m: Buckets, n: Buckets, now: real) {
    forall k, t :: now <= t ==> Level(p, m, k, t) == Level(p, n, k, t)
  }

  lemma {:induction false} ReapAlike(p: Params, m: Buckets, now: real, maxIdle: real)
    requires Proper(p) && SaneAt(p, m, now) && IdleRefills(p, maxIdle)
    ensures Alike(p, m, Reap(m, now, maxIdle), now) && SaneAt(p, Reap(m, now, maxIdle), now)
  {
  }

  /** Indistinguishable states answer alike and stay indistinguishable. */
  lemma {:induction false} RequestAlike(p: Params, m: Buckets, n: Buckets, key: string, t: real)
    requires Alike(p, m, n, t)
    ensures Request(p, m, key, t).1 == Request(p, n, key, t).1
    ensures Alike(p, Request(p, m, key, t).0, Request(p, n, key, t).0, t)
  {
    assert Level(p, m, key, t) == Level(p, n, key, t);
    var m', n' := Request(p, m, key, t).0, Request(p, n, key, t).0;
    assert m'[key] == n'[key];
    forall k, u | t <= u
      ensures Level(p, m', k, u) == Level(p, n', k, u)
    {
      assert Level(p, m, k, u) == Level(p, n, k, u);
    }
  }

  function WithoutSweeps(evs: seq<Event>): seq<Event> {
    if evs == [] then []
    else
      var n := |evs| - 1;
      if evs[n].Sweep? then WithoutSweeps(evs[..n]) else WithoutSweeps(evs[..n]) + [evs[n]]
  }

  ghost predicate GentleSweeps(p: Params, evs: seq<Event>) {
    evs != [] ==>
      && (evs[|evs| - 1].Sweep? ==> IdleRefills(p, evs[|evs| - 1].maxIdle))
      && GentleSweeps(p, evs[..|evs| - 1])
  }

  lemma {:induction false} OrderSpans(evs: seq<Event>, t0: real, t: real)
    requires InOrder(evs, t0, t)
    ensures t0 <= t
  {
    if evs != [] {
      OrderSpans(evs[..|evs| - 1], t0, evs[|evs| - 1].t);
    }
  }

  lemma {:induction false} SaneLater(p: Params, m: Buckets, t: real, u: real)
    requires SaneAt(p, m, t) && t <= u
    ensures SaneAt(p, m, u)
  {
  }

  lemma {:induction false} RunSane(p: Params, m: Buckets, evs: seq<Event>, t0: real, t: real)
    requires Proper(p) && SaneAt(p, m, t0) && InOrder(evs, t0, t)
    ensures SaneAt(p, Run(p, m, evs), t)
  {
    if evs == [] {
      SaneLater(p, m, t0, t);
    } else {
      var n := |evs| - 1;
      RunSane(p, m, evs[..n], t0, evs[n].t);
      var r := Run(p, m, evs[..n]);
      if evs[n].Ask? {
        LevelAfterRequest(p, r, evs[n].key, evs[n].t, "");
      }
      SaneLater(p, Run(p, m, evs), evs[n].t, t);
    }
  }

  lemma {:induction false} RunAlike(p: Params, m: Buckets, evs: seq<Event>, t0: real, t: real)
    requires Proper(p) && SaneAt(p, m, t0) && InOrder(evs, t0, t) && GentleSweeps(p, evs)
    ensures Alike(p, Run(p, m, WithoutSweeps(evs)), Run(p, m, evs), t)
  {
    if evs != [] {
      var n := |evs| - 1;
      var e := evs[n];
      RunAlike(p, m, evs[..n], t0, e.t);
      var full, swept := Run(p, m, WithoutSweeps(evs[..n])), Run(p, m, evs[..n]);
      RunSane(p, m, evs[..n], t0, e.t);
      if e.Sweep? {
        ReapAlike(p, swept, e.t, e.maxIdle);
        AlikeTransitive(p, full, swept, Reap(swept, e.t, e.maxIdle), e.t);
      } else {
        RequestAlike(p, full, swept, e.key, e.t);
        var w := WithoutSweeps(evs);
        assert w[..|w| - 1] == WithoutSweeps(evs[..n]);
      }
      AlikeLater(p, Run(p, m, WithoutSweeps(evs)), Run(p, m, evs), e.t, t);
    }
  }

  lemma {:induction false} AlikeTransitive(p: Params, a: Buckets, b: Buckets, c: Buckets, t: real)
    requires Alike(p, a, b, t) && Alike(p, b, c, t)
    ensures Alike(p, a, c, t)
  {
  }

  lemma {:induction false} AlikeLater(p: Params, a: Buckets, b: Buckets, t: real, u: real)
    requires Alike(p, a, b, t) && t <= u
    ensures Alike(p, a, b, u)
  {
  }

  /** At any moment of any run with sweeps of idle time at least a full refill, a request is decided
      exactly as if no bucket had ever been reaped. */
  lemma {:induction false} ReapingInvisible(p: Params, evs: seq<Event>, t0: real, key: string, t: real)
    requires Proper(p) && InOrder(evs, t0, t) && GentleSweeps(p, evs)
    ensures Request(p, Run(p, map[], evs), key, t).1 == Request(p, Run(p, map[], WithoutSweeps(evs)), key, t).1
  {
    RunAlike(p, map[], evs, t0, t);
    RequestAlike(p, Run(p, map[], WithoutSweeps(evs)), Run(p, map[], evs), key, t);
  }

  // ---- the window bound ----

  function Cost(p: Params, r: Buckets, e: Event, key: string): real {
    if e.Ask? && e.key == key && Allowed(p, r, e) then 1.0 else 0.0
  }

  lemma {:induction false} StepThenWait(p: Params, r: Buckets, e: Event, key: string, t: real)
    requires Proper(p) && SaneAt(p, r, e.t) && (e.Sweep? ==> IdleRefills(p, e.maxIdle)) && e.t <= t
    ensures Level(p, Step(p, r, e), key, t) <= Level(p, r, key, e.t) - Cost(p, r, e, key) + (p.gain(t) - p.gain(e.t))
  {
  }

  /** Requests granted plus what is left never exceed what was there plus what time brought. */
  lemma {:induction false} Balance(p: Params, m: Buckets, evs: seq<Event>, key: string, t0: real, t: real)
    requires Proper(p) && SaneAt(p, m, t0) && InOrder(evs, t0, t) && GentleSweeps(p, evs)
    ensures Granted(p, m, evs, key) as real + Level(p, Run(p, m, evs), key, t) <= Level(p, m, key, t0)
            + (p.gain(t) - p.gain(t0))
    decreases evs, 1
  {
    if evs == [] {
      LevelOverTime(p, m, key, t0, t);
    } else {
      BalanceStep(p, m, evs, key, t0, t);
    }
  }

  lemma {:induction false} BalanceStep(p: Params, m: Buckets, evs: seq<Event>, key: string, t0: real, t: real)
    requires Proper(p) && SaneAt(p, m, t0) && InOrder(evs, t0, t) && GentleSweeps(p, evs) && evs != []
    ensures Granted(p, m, evs, key) as real + Level(p, Run(p, m, evs), key, t) <= Level(p, m, key, t0)
            + (p.gain(t) - p.gain(t0))
    decreases evs, 0
  {
    var n := |evs| - 1;
    var front, e := evs[..n], evs[n];
    Balance(p, m, front, key, t0, e.t);
    RunSane(p, m, front, t0, e.t);
    StepThenWait(p, Run(p, m, front), e, key, t);
    Tally(p, m, evs, key, t0, t);
  }

  /** Adding the last event's balance to that of the events before it. */
  lemma {:induction false} Tally(p: Params, m: Buckets, evs: seq<Event>, key: string, t0: real, t: real)
    requires evs != []
    requires var n := |evs| - 1;
             var r, s := Run(p, m, evs[..n]), evs[n].t;
             && Granted(p, m, evs[..n], key) as real + Level(p, r, key, s) <= Level(p, m, key, t0)
                + (p.gain(s) - p.gain(t0))
             && Level(p, Step(p, r, evs[n]), key, t) <= Level(p, r, key, s) - Cost(p, r, evs[n], key)
                + (p.gain(t) - p.gain(s))
    ensures Granted(p, m, evs, key) as real + Level(p, Run(p, m, evs), key, t) <= Level(p, m, key, t0)
            + (p.gain(t) - p.gain(t0))
  {
  }

  /** In any window of T seconds, from any state of the limiter, with any other keys asking and any
      sweeps going on, a key is allowed at most cap plus the window's gain. */
  lemma {:induction false} WindowBound(p: Params, m: Buckets, evs: seq<Event>, key: string, t0: real, t: real)
    requires Proper(p) && SaneAt(p, m, t0) && InOrder(evs, t0, t) && GentleSweeps(p, evs)
    ensures Granted(p, m, evs, key) as real <= p.cap + (p.gain(t) - p.gain(t0))
  {
    OrderSpans(evs, t0, t);
    Balance(p, m, evs, key, t0, t);
    RunSane(p, m, evs, t0, t);
    LevelOverTime(p, Run(p, m, evs), key, t, t);
    LevelOverTime(p, m, key, t0, t0);
  }
}
