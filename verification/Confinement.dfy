/** Whether the peers of a living agent are confined. Grants reach the firewall through rebuilds, each of
    which may fail: the agent only logs that, and a failed rebuild leaves no rule behind. */
module Confinement {
  import opened Base
  import opened Prefixes
  import opened Acl
  import opened Signing
  import opened DeviceState
  import opened Firewall
  import opened FirewallManager
  import opened Lives
  import opened LifeGrants
  import R = AgentRuns
  import Re = Restarts

  datatype Guarded = Guarded(s: State, wall: Wall)

  /** A moment of the agent's life or a tick of the watchdog, and whether a rebuild it causes works. */
  datatype Beat =
    | Passes(m: Moment, rebuilt: bool)
    | Ticks(rebuilt: bool)

  /** The tables before the beat refreshes anything. An agent that starts has installed chains without
      grants: if it cannot, it does not start. */
  function Standing(ports: seq<int>, w: Wall, b: Beat): Wall {
    if b.Passes? && b.m.Reboots? then Rebuilt(ports, [], true) else w
  }

  function Beaten(env: Env, ports: seq<int>, g: Guarded, b: Beat): Guarded {
    match b
    case Passes(m, rebuilt) =>
      var t, w := Next(env, g.s, m), Standing(ports, g.wall, b);
      Guarded(t, if Refreshes(env, g.s, m) then Refreshed(ports, w, t.grants, rebuilt) else w)
    case Ticks(rebuilt) => g.(wall := Ticked(ports, g.wall, rebuilt))
  }

  function After(env: Env, ports: seq<int>, g: Guarded, bs: seq<Beat>): Guarded {
    if bs == [] then g else Beaten(env, ports, After(env, ports, g, bs[..|bs| - 1]), bs[|bs| - 1])
  }

  function Moments(bs: seq<Beat>): seq<Moment> {
    if bs == [] then []
    else Moments(bs[..|bs| - 1]) + if bs[|bs| - 1].Passes? then [bs[|bs| - 1].m] else []
  }

  /** Both families hold exactly the chains compiled from the grants last given. */
  predicate Confined(ports: seq<int>, w: Wall) {
    w == Rebuilt(ports, w.grants, true)
  }

  /** Neither has any chain. */
  predicate Down(w: Wall) {
    w.v4 == NO_CHAINS == w.v6
  }

  /** The firewall was last given the agent's grants, and is all there or not there at all. */
  ghost predicate Watched(ports: seq<int>, g: Guarded) {
    g.wall.grants == g.s.grants && (Confined(ports, g.wall) || Down(g.wall))
  }

  // ---- one beat ----

  /** The beat rebuilds: for changed grants, or because the jumps are missing. */
  ghost predicate Attempts(env: Env, ports: seq<int>, g: Guarded, b: Beat) {
    match b
    case Passes(m, rebuilt) =>
      Refreshes(env, g.s, m) && Next(env, g.s, m).grants != Standing(ports, g.wall, b).grants
    case Ticks(rebuilt) => Down(g.wall)
  }

  /** Afterwards the agent is confined exactly if the rebuild worked; without one, exactly if it was, or has
      just started. */
  lemma {:induction false} BeatenIff(env: Env, ports: seq<int>, g: Guarded, b: Beat)
    requires Watched(ports, g)
    ensures var w := Beaten(env, ports, g, b).wall;
            && (Confined(ports, w) || Down(w))
            && (Confined(ports, w) <==>
                if Attempts(env, ports, g, b) then b.rebuilt else Confined(ports, Standing(ports, g.wall, b)))
  {
  }

  lemma {:induction false} BeatenWatched(env: Env, ports: seq<int>, g: Guarded, b: Beat)
    requires Watched(ports, g) && R.AllocSound(g.s) && (b.Passes? && b.m.Reboots? ==> Re.LoadedOn(g.s.alloc, b.m.b))
    ensures Watched(ports, Beaten(env, ports, g, b)) && R.AllocSound(Beaten(env, ports, g, b).s)
  {
    BeatenIff(env, ports, g, b);
    if b.Passes? {
      NextGrants(env, g.s, b.m);
    }
  }

  /** A push whose grants are those already given does not bring a fallen firewall back. */
  lemma {:induction false} SameGrantsDoNotMend(env: Env, ports: seq<int>, g: Guarded, e: R.Event, rebuilt: bool)
    requires Watched(ports, g) && Down(g.wall) && R.Step(env, g.s, e).grants == g.s.grants
    ensures Down(Beaten(env, ports, g, Passes(Happens(e), rebuilt)).wall)
  {
  }

  /** The watchdog does. */
  lemma {:induction false} TickMends(env: Env, ports: seq<int>, g: Guarded)
    requires Watched(ports, g)
    ensures Confined(ports, Beaten(env, ports, g, Ticks(true)).wall) && Beaten(env, ports, g, Ticks(true)).s == g.s
  {
  }

  // ---- whole lives ----

  /** Every restart among the beats loads some allocation file on the agent's subnet. */
  ghost predicate Loadable(env: Env, ports: seq<int>, g: Guarded, bs: seq<Beat>) {
    forall i :: 0 <= i < |bs| && bs[i].Passes? && bs[i].m.Reboots? ==>
                  Re.LoadedOn(After(env, ports, g, bs[..i]).s.alloc, bs[i].m.b)
  }

  lemma {:induction false} AfterStep(env: Env, ports: seq<int>, g: Guarded, bs: seq<Beat>, i: nat)
    requires i < |bs|
    ensures After(env, ports, g, bs[..i + 1]) == Beaten(env, ports, After(env, ports, g, bs[..i]), bs[i])
  {
    assert bs[..i + 1][..i] == bs[..i];
  }

  lemma {:induction false} WatchedAt(env: Env, ports: seq<int>, g: Guarded, bs: seq<Beat>, i: nat)
    requires Watched(ports, g) && R.AllocSound(g.s) && Loadable(env, ports, g, bs) && i <= |bs|
    ensures Watched(ports, After(env, ports, g, bs[..i])) && R.AllocSound(After(env, ports, g, bs[..i]).s)
  {
    if i == 0 {
      assert bs[..0] == [];
    } else {
      WatchedAt(env, ports, g, bs, i - 1);
      AfterStep(env, ports, g, bs, i - 1);
      BeatenWatched(env, ports, After(env, ports, g, bs[..i - 1]), bs[i - 1]);
    }
  }

  ghost function ConfinedAfter(env: Env, ports: seq<int>, g: Guarded): seq<Beat> -> bool {
    (bs: seq<Beat>) => Confined(ports, After(env, ports, g, bs).wall)
  }

  ghost function FailsAfter(env: Env, ports: seq<int>, g: Guarded): (seq<Beat>, Beat) -> bool {
    (bs: seq<Beat>, b: Beat) => !b.rebuilt && Attempts(env, ports, After(env, ports, g, bs), b)
  }

  /** The peers are confined throughout a life if and only if no rebuild fails. */
  lemma {:induction false} ConfinedIff(env: Env, ports: seq<int>, g: Guarded, bs: seq<Beat>)
    requires Watched(ports, g) && Confined(ports, g.wall) && R.AllocSound(g.s) && Loadable(env, ports, g, bs)
    ensures Throughout(bs, ConfinedAfter(env, ports, g)) <==> Harmless(bs, FailsAfter(env, ports, g))
  {
    forall i | 0 <= i < |bs| && ConfinedAfter(env, ports, g)(bs[..i])
      ensures ConfinedAfter(env, ports, g)(bs[..i + 1]) <==> !FailsAfter(env, ports, g)(bs[..i], bs[i])
    {
      WatchedAt(env, ports, g, bs, i);
      AfterStep(env, ports, g, bs, i);
      BeatenIff(env, ports, After(env, ports, g, bs[..i]), bs[i]);
    }
    ThroughoutIff(bs, ConfinedAfter(env, ports, g), FailsAfter(env, ports, g));
  }

  lemma {:induction false} AfterIsLife(env: Env, ports: seq<int>, g: Guarded, bs: seq<Beat>)
    ensures After(env, ports, g, bs).s == Life(env, g.s, Moments(bs))
  {
    if bs != [] {
      var front, b := bs[..|bs| - 1], bs[|bs| - 1];
      AfterIsLife(env, ports, g, front);
      if b.Passes? {
        var ms := Moments(front) + [b.m];
        assert ms[..|ms| - 1] == Moments(front);
      } else {
        assert Moments(front) + [] == Moments(front);
      }
    }
  }

  lemma {:induction false} LoadableFront(env: Env, ports: seq<int>, g: Guarded, bs: seq<Beat>)
    requires bs != [] && Loadable(env, ports, g, bs)
    ensures Loadable(env, ports, g, bs[..|bs| - 1])
  {
    var front := bs[..|bs| - 1];
    forall i | 0 <= i < |front| && front[i].Passes? && front[i].m.Reboots?
      ensures Re.LoadedOn(After(env, ports, g, front[..i]).s.alloc, front[i].m.b)
    {
      assert front[..i] == bs[..i] && front[i] == bs[i];
    }
  }

  lemma {:induction false} LoadableIsFeasible(env: Env, ports: seq<int>, g: Guarded, bs: seq<Beat>)
    requires Loadable(env, ports, g, bs)
    ensures Feasible(env, g.s, Moments(bs))
  {
    if bs != [] {
      var front, b := bs[..|bs| - 1], bs[|bs| - 1];
      LoadableFront(env, ports, g, bs);
      LoadableIsFeasible(env, ports, g, front);
      var n, ms := |Moments(front)|, Moments(bs);
      AfterIsLife(env, ports, g, front);
      forall i | 0 <= i < |ms| && ms[i].Reboots?
        ensures Re.LoadedOn(Life(env, g.s, ms[..i]).alloc, ms[i].b)
      {
        if i < n {
          assert ms[..i] == Moments(front)[..i] && ms[i] == Moments(front)[i];
        } else {
          assert ms[..i] == Moments(front);
        }
      }
    }
  }

  /** At every moment at which the peers are confined, the installed chains decide every packet by the
      members as the last applied push or restart left them. */
  lemma {:induction false} ConfinedDecides(env: Env, ports: seq<int>, g: Guarded, bs: seq<Beat>, f: Family, p: Packet)
    requires Watched(ports, g) && R.AllocSound(g.s) && g.s.grants == Grants(g.s.members) && Loadable(env, ports, g, bs)
    requires Confined(ports, After(env, ports, g, bs).wall)
    ensures var w, ms := After(env, ports, g, bs).wall, Moments(bs);
            var t := if f == IPv4 then w.v4 else w.v6;
            var us := Life(env, g.s, ms[..LastRefresh(env, g.s, ms)]).members;
            && t.input.Some? && t.forward.Some? && t.inputJumps == 1 == t.forwardJumps
            && Decide(t.input.value, p)
               == Some(p.established || p.proto == Icmp || (p.proto == Tcp && p.dport > 0 && p.dport in ports)
                       || Granted(us, f, p))
            && Decide(t.forward.value, p) == Some(Granted(us, f, p))
  {
    assert bs[..|bs|] == bs;
    WatchedAt(env, ports, g, bs, |bs|);
    AfterIsLife(env, ports, g, bs);
    LoadableIsFeasible(env, ports, g, bs);
    LifeReachability(env, g.s, Moments(bs), ports, f, p);
  }
}
