/** The firewall manager: installing the compiled chains, command by command, any of which may fail. */
module FirewallManager {
  import opened Base
  import opened Addresses
  import opened Acl
  import opened Firewall

  /** One family's table: our two chains, if they exist, and how many jumps lead into each. */
  datatype Table = Table(input: Option<seq<Rule>>, forward: Option<seq<Rule>>, inputJumps: nat, forwardJumps: nat)

  datatype Chain = Input | Forward

  function RulesOf(t: Table, c: Chain): Option<seq<Rule>> {
    if c.Input? then t.input else t.forward
  }

  function SetRules(t: Table, c: Chain, rules: Option<seq<Rule>>): Table {
    if c.Input? then t.(input := rules) else t.(forward := rules)
  }

  function Jumps(t: Table, c: Chain): nat {
    if c.Input? then t.inputJumps else t.forwardJumps
  }

  function SetJumps(t: Table, c: Chain, n: nat): Table {
    if c.Input? then t.(inputJumps := n) else t.(forwardJumps := n)
  }

  /** The kernel refuses to delete a chain that is jumped to, so a jump leads to an existing chain. */
  predicate Sound(t: Table) {
    (t.inputJumps > 0 ==> t.input.Some?) && (t.forwardJumps > 0 ==> t.forward.Some?)
  }

  /** Both chains hold exactly the compiled rules, with one jump into each. */
  predicate Installed(t: Table, ports: seq<int>, gs: seq<PortGrant>, f: Family) {
    t == Compiled(ports, gs, f)
  }

  const DRAIN_LIMIT := 8

  /** Teardown deletes at most eight jumps per chain. */
  function Drained(jumps: nat): nat {
    if jumps <= DRAIN_LIMIT then 0 else jumps - DRAIN_LIMIT
  }

  function WithJumpsDrained(t: Table, c: Chain): Table {
    SetJumps(t, c, Drained(Jumps(t, c)))
  }

  function Flushed(t: Table, c: Chain): Table {
    if RulesOf(t, c).Some? then SetRules(t, c, Some([])) else t
  }

  /** The kernel deletes only an empty chain that nothing jumps to. */
  function Deleted(t: Table, c: Chain): Table {
    if RulesOf(t, c) == Some([]) && Jumps(t, c) == 0 then SetRules(t, c, None) else t
  }

  /** A chain is emptied, and goes once nothing jumps to it. */
  function Remnant(rules: Option<seq<Rule>>, jumps: nat): Option<seq<Rule>> {
    if rules.None? || jumps == 0 then None else Some([])
  }

  /** What teardown leaves of a table when no command fails needlessly. */
  function TornDown(t: Table): Table {
    var i, o := Drained(t.inputJumps), Drained(t.forwardJumps);
    Table(Remnant(t.input, i), Remnant(t.forward, o), i, o)
  }

  lemma {:induction false} TeardownSteps(t: Table)
    ensures var drained := WithJumpsDrained(WithJumpsDrained(t, Input), Forward);
            Deleted(Deleted(Flushed(Flushed(drained, Input), Forward), Input), Forward) == TornDown(t)
  {
  }

  /** Nothing of ours in the table. */
  const NO_CHAINS := Table(None, None, 0, 0)

  /** No rule of ours left: whatever enters falls through to the host's own rules. */
  predicate Open(t: Table) {
    (t.input.None? || t.input == Some([])) && (t.forward.None? || t.forward == Some([]))
  }

  ghost predicate OnlyIn(before: map<Family, Table>, after: map<Family, Table>, f: Family) {
    after.Keys == before.Keys && forall g :: g in before && g != f ==> after[g] == before[g]
  }

  predicate SameJumps(t: Table, u: Table) {
    u.inputJumps == t.inputJumps && u.forwardJumps == t.forwardJumps
  }

  predicate AtMostOneJumpMore(t: Table, u: Table) {
    u.inputJumps <= t.inputJumps + 1 && u.forwardJumps <= t.forwardJumps + 1
  }

  /** Few enough stray jumps for one teardown to clear the table. */
  predicate Clearable(t: Table) {
    t.inputJumps <= DRAIN_LIMIT && t.forwardJumps <= DRAIN_LIMIT
  }

  // ---- an enabled manager, seen from outside ----

  /** The grants it was last given, and what is in the tables. */
  datatype Wall = Wall(grants: seq<PortGrant>, v4: Table, v6: Table)

  function Compiled(ports: seq<int>, gs: seq<PortGrant>, f: Family): Table {
    Table(Some(InputRules(ports, gs, f)), Some(ForwardRules(gs, f)), 1, 1)
  }

  /** The outcome of a rebuild for these grants. */
  function Rebuilt(ports: seq<int>, gs: seq<PortGrant>, ok: bool): Wall {
    if ok then Wall(gs, Compiled(ports, gs, IPv4), Compiled(ports, gs, IPv6)) else Wall(gs, NO_CHAINS, NO_CHAINS)
  }

  /** SetPortGrants: only changed grants are a reason to rebuild. */
  function Refreshed(ports: seq<int>, w: Wall, gs: seq<PortGrant>, ok: bool): Wall {
    if gs == w.grants then w else Rebuilt(ports, gs, ok)
  }

  /** The watchdog: only a missing INPUT jump is. */
  function Ticked(ports: seq<int>, w: Wall, ok: bool): Wall {
    if w.v4.inputJumps > 0 && w.v6.inputJumps > 0 then w else Rebuilt(ports, w.grants, ok)
  }

  class Manager {
    const iface: string
    const ports: seq<int>
    const clears: bool              // deleting, flushing and checking fail only where the table says so
    const adds: bool                // and so do creating, appending and inserting
    var enabled: bool
    var portGrants: seq<PortGrant>
    var table: map<Family, Table>   // the kernel's, one per family

    ghost predicate Valid()
      reads this
    {
      IPv4 in table && IPv6 in table && Sound(table[IPv4]) && Sound(table[IPv6])
    }

    constructor (iface: string, ports: seq<int>, clears: bool, adds: bool, table: map<Family, Table>)
      requires IPv4 in table && IPv6 in table && Sound(table[IPv4]) && Sound(table[IPv6])
      ensures Valid() && !enabled && portGrants == [] && this.ports == ports && this.iface == iface
              && this.table == table
      ensures this.clears == clears && this.adds == adds
    {
      this.iface, this.ports, this.clears, this.adds, this.table := iface, ports, clears, adds, table;
      enabled, portGrants := false, [];
    }

    /** Both tools and an interface are there, and one teardown clears both tables. */
    ghost predicate Workable(binaries: bool)
      requires Valid()
      reads this
    {
      binaries && iface != "" && Clearable(table[IPv4]) && Clearable(table[IPv6])
    }

    ghost function View(): Wall
      requires Valid()
      reads this
    {
      Wall(portGrants, table[IPv4], table[IPv6])
    }

    // ---- single commands; unless `clears` or `adds`, each may fail for reasons of its own ----

    method NewChain(f: Family, c: Chain) returns (ok: bool)
      requires Valid()
      modifies this`table
      ensures Valid()
      ensures ok ==> RulesOf(old(table)[f], c).None? && table == old(table)[f := SetRules(old(table)[f], c, Some([]))]
      ensures !ok ==> table == old(table)
      ensures adds ==> ok == RulesOf(old(table)[f], c).None?
    {
      ok := *;
      ok := ok || adds;
      if RulesOf(table[f], c).Some? {
        ok := false;
      }
      if ok {
        table := table[f := SetRules(table[f], c, Some([]))];
      }
    }

    method Append(f: Family, c: Chain, r: Rule) returns (ok: bool)
      requires Valid()
      modifies this`table
      ensures Valid()
      ensures ok ==> RulesOf(old(table)[f], c).Some?
                     && table == old(table)[f :=
                                            SetRules(old(table)[f], c, Some(RulesOf(old(table)[f], c).value + [r]))]
      ensures !ok ==> table == old(table)
      ensures adds ==> ok == RulesOf(old(table)[f], c).Some?
    {
      ok := *;
      ok := ok || adds;
      if RulesOf(table[f], c).None? {
        ok := false;
      }
      if ok {
        table := table[f := SetRules(table[f], c, Some(RulesOf(table[f], c).value + [r]))];
      }
    }

    method InsertJump(f: Family, c: Chain) returns (ok: bool)
      requires Valid()
      modifies this`table
      ensures Valid()
      ensures ok ==> RulesOf(old(table)[f], c).Some?
      ensures ok ==> table == old(table)[f := SetJumps(old(table)[f], c, Jumps(old(table)[f], c) + 1)]
      ensures !ok ==> table == old(table)
      ensures adds ==> ok == RulesOf(old(table)[f], c).Some?
    {
      ok := *;
      ok := ok || adds;
      if RulesOf(table[f], c).None? {
        ok := false;
      }
      if ok {
        table := table[f := SetJumps(table[f], c, Jumps(table[f], c) + 1)];
      }
    }

    method DeleteJump(f: Family, c: Chain) returns (ok: bool)
      requires Valid()
      modifies this`table
      ensures Valid()
      ensures ok ==> Jumps(old(table)[f], c) > 0
      ensures ok ==> table == old(table)[f := SetJumps(old(table)[f], c, Jumps(old(table)[f], c) - 1)]
      ensures !ok ==> table == old(table)
      ensures clears ==> ok == (Jumps(old(table)[f], c) > 0)
    {
      ok := *;
      ok := ok || clears;
      if Jumps(table[f], c) == 0 {
        ok := false;
      }
      if ok {
        table := table[f := SetJumps(table[f], c, Jumps(table[f], c) - 1)];
      }
    }

    method Flush(f: Family, c: Chain)
      requires Valid()
      modifies this`table
      ensures Valid()
      ensures table == old(table) || table == old(table)[f := Flushed(old(table)[f], c)]
      ensures clears ==> table == old(table)[f := Flushed(old(table)[f], c)]
    {
      var ok: bool := *;
      if (ok || clears) && RulesOf(table[f], c).Some? {
        table := table[f := SetRules(table[f], c, Some([]))];
      }
    }

    method DeleteChain(f: Family, c: Chain)
      requires Valid()
      modifies this`table
      ensures Valid()
      ensures table == old(table) || table == old(table)[f := Deleted(old(table)[f], c)]
      ensures clears ==> table == old(table)[f := Deleted(old(table)[f], c)]
    {
      var ok: bool := *;
      if (ok || clears) && RulesOf(table[f], c) == Some([]) && Jumps(table[f], c) == 0 {
        table := table[f := SetRules(table[f], c, None)];
      }
    }

    method HasInputJump(f: Family) returns (present: bool)
      requires Valid()
      ensures present ==> table[f].inputJumps > 0
      ensures clears ==> present == (table[f].inputJumps > 0)
    {
      present := *;
      present := (present || clears) && table[f].inputJumps > 0;
    }

    // ---- building and installing ----

    /** portGrantRules: one rule per (address, protocol, port). */
    static method PortGrantRules(gs: seq<PortGrant>, f: Family) returns (rules: seq<Rule>)
      ensures rules == GrantRules(gs, f)
    {
      rules := [];
      for i := 0 to |gs|
        invariant rules == GrantRules(gs[..i], f)
      {
        assert gs[..i + 1][..i] == gs[..i];
        var src := Source(gs[i], f);
        if src == NoAddress {
          assert GrantRules(gs[..i + 1], f) == rules + [];
          continue;
        }
        var tcp := RulesFor(src, Tcp, gs[i].tcp);
        var udp := RulesFor(src, Udp, gs[i].udp);
        rules := rules + (tcp + udp);
      }
      assert gs[..|gs|] == gs;
    }

    static method RulesFor(src: Address, proto: Proto, ports: seq<int>) returns (rules: seq<Rule>)
      ensures rules == PortRules(src, proto, ports)
    {
      rules := [];
      for i := 0 to |ports|
        invariant rules == PortRules(src, proto, ports[..i])
      {
        assert ports[..i + 1][..i] == ports[..i];
        if ports[i] <= 0 {
          assert rules + [] == rules;
          continue;
        }
        rules := rules + [AcceptFrom(src, proto, ports[i])];
      }
      assert ports[..|ports|] == ports;
    }

    /** Append rules one by one, stopping at the first failure. */
    method AppendAll(f: Family, c: Chain, rules: seq<Rule>) returns (ok: bool)
      requires Valid() && RulesOf(table[f], c).Some?
      modifies this`table
      ensures Valid()
      ensures ok ==> table == old(table)[f := SetRules(old(table)[f], c, Some(RulesOf(old(table)[f], c).value + rules))]
      ensures OnlyIn(old(table), table, f) && SameJumps(old(table)[f], table[f])
      ensures adds ==> ok
    {
      ghost var before := table;
      ghost var start := RulesOf(table[f], c).value;
      assert start + [] == start;
      assert before == before[f := SetRules(before[f], c, Some(start))];
      for i := 0 to |rules|
        invariant Valid()
        invariant table == before[f := SetRules(before[f], c, Some(start + rules[..i]))]
      {
        assert rules[..i + 1] == rules[..i] + [rules[i]];
        assert start + rules[..i + 1] == start + rules[..i] + [rules[i]];
        ok := Append(f, c, rules[i]);
        if !ok {
          return;
        }
      }
      assert rules[..|rules|] == rules;
      ok := true;
    }

    method AllowProxyPorts(f: Family) returns (ok: bool)
      requires Valid() && table[f].input.Some?
      modifies this`table
      ensures Valid()
      ensures ok ==>
              table == old(table)[f := old(table)[f].(input := Some(old(table)[f].input.value + ProxyRules(ports)))]
      ensures OnlyIn(old(table), table, f) && SameJumps(old(table)[f], table[f])
      ensures adds ==> ok
    {
      ghost var before := table;
      ghost var start := table[f].input.value;
      assert start + [] == start;
      assert before == before[f := before[f].(input := Some(start))];
      for i := 0 to |ports|
        invariant Valid()
        invariant table == before[f := before[f].(input := Some(start + ProxyRules(ports[..i])))]
      {
        assert ports[..i + 1][..i] == ports[..i];
        if ports[i] <= 0 {
          assert ProxyRules(ports[..i + 1]) == ProxyRules(ports[..i]);
          continue;
        }
        assert start + ProxyRules(ports[..i + 1]) == start + ProxyRules(ports[..i]) + [AcceptTcp(ports[i])];
        ok := Append(f, Input, AcceptTcp(ports[i]));
        if !ok {
          return;
        }
      }
      assert ports[..|ports|] == ports;
      ok := true;
    }

    /** The INPUT chain of one family, up to but not including the jump. */
    method FillInput(f: Family) returns (ok: bool)
      requires Valid() && table[f].input == Some([])
      modifies this`table
      ensures Valid()
      ensures ok ==> table == old(table)[f := old(table)[f].(input := Some(InputRules(ports, portGrants, f)))]
      ensures OnlyIn(old(table), table, f) && SameJumps(old(table)[f], table[f])
      ensures adds ==> ok
    {
      ok := AppendAll(f, Input, [AcceptEstablished, AcceptIcmp]);
      if !ok {
        return;
      }
      ok := AllowProxyPorts(f);
      if !ok {
        return;
      }
      var rules := PortGrantRules(portGrants, f);
      ok := AppendAll(f, Input, rules);
      if !ok {
        return;
      }
      ok := Append(f, Input, DropAll);
      InputShape(ports, portGrants, f);
    }

    method FillForward(f: Family) returns (ok: bool)
      requires Valid() && table[f].forward == Some([])
      modifies this`table
      ensures Valid()
      ensures ok ==> table == old(table)[f := old(table)[f].(forward := Some(ForwardRules(portGrants, f)))]
      ensures OnlyIn(old(table), table, f) && SameJumps(old(table)[f], table[f])
      ensures adds ==> ok
    {
      var rules := PortGrantRules(portGrants, f);
      ok := AppendAll(f, Forward, rules);
      if !ok {
        return;
      }
      ok := Append(f, Forward, DropAll);
      assert [] + GrantRules(portGrants, f) == GrantRules(portGrants, f);
    }

    /** Both chains of one family, without the jumps into them. */
    method FillChains(f: Family) returns (ok: bool)
      requires Valid()
      modifies this`table
      ensures Valid()
      ensures ok ==> table[f].input == Some(InputRules(ports, portGrants, f))
      ensures ok ==> table[f].forward == Some(ForwardRules(portGrants, f))
      ensures OnlyIn(old(table), table, f) && SameJumps(old(table)[f], table[f])
      ensures ok ==> old(table)[f].input.None? && old(table)[f].forward.None?
      ensures adds ==> ok == (old(table)[f].input.None? && old(table)[f].forward.None?)
    {
      ok := NewChain(f, Input);
      if !ok {
        return;
      }
      ok := NewChain(f, Forward);
      if !ok {
        return;
      }
      ok := FillInput(f);
      if !ok {
        return;
      }
      ok := FillForward(f);
    }

    method ApplyTable(f: Family) returns (ok: bool)
      requires Valid()
      modifies this`table
      ensures Valid()
      ensures ok ==> Installed(table[f], ports, portGrants, f)
      ensures OnlyIn(old(table), table, f) && AtMostOneJumpMore(old(table)[f], table[f])
      ensures adds ==> ok == (old(table)[f].input.None? && old(table)[f].forward.None?)
    {
      ok := FillChains(f);
      if !ok {
        return;
      }
      ok := InsertJump(f, Input);
      if !ok {
        return;
      }
      ok := InsertJump(f, Forward);
      if !ok {
        var _ := DeleteJump(f, Input);
      }
    }

    method Teardown()
      requires Valid()
      modifies this`table
      ensures Valid()
      ensures clears ==> table == old(table)[IPv4 := TornDown(old(table)[IPv4])][IPv6 := TornDown(old(table)[IPv6])]
    {
      TeardownTable(IPv4);
      TeardownTable(IPv6);
    }

    method TeardownTable(f: Family)
      requires Valid()
      modifies this`table
      ensures Valid()
      ensures clears ==> table == old(table)[f := TornDown(old(table)[f])]
    {
      TeardownSteps(table[f]);
      DrainJumps(f, Input);
      DrainJumps(f, Forward);
      Flush(f, Input);
      Flush(f, Forward);
      DeleteChain(f, Input);
      DeleteChain(f, Forward);
    }

    method DrainJumps(f: Family, c: Chain)
      requires Valid()
      modifies this`table
      ensures Valid()
      ensures Jumps(table[f], c) <= Jumps(old(table)[f], c)
      ensures table == old(table)[f := SetJumps(old(table)[f], c, Jumps(table[f], c))]
      ensures clears ==> table == old(table)[f := WithJumpsDrained(old(table)[f], c)]
    {
      ghost var before := table;
      for i := 0 to DRAIN_LIMIT
        invariant Valid()
        invariant Jumps(table[f], c) <= Jumps(before[f], c)
        invariant table == before[f := SetJumps(before[f], c, Jumps(table[f], c))]
        invariant clears ==> Jumps(table[f], c) == if Jumps(before[f], c) <= i then 0 else Jumps(before[f], c) - i
      {
        var ok := DeleteJump(f, c);
        if !ok {
          break;
        }
      }
    }

    /** Whatever fails along the way, success means both families are confined by exactly the compiled
        chains. Failure leaves `enabled` as it was and, if the tools are there and removing works, no rule
        of ours in either family. `binaries` is whether both tools are on the PATH. When no command fails
        needlessly it succeeds exactly if one teardown clears the stray jumps. */
    method Apply(binaries: bool) returns (ok: bool)
      requires Valid()
      modifies this`table, this`enabled
      ensures Valid()
      ensures ok ==> enabled && Installed(table[IPv4], ports, portGrants, IPv4)
      ensures ok ==> Installed(table[IPv6], ports, portGrants, IPv6)
      ensures !ok ==> enabled == old(enabled)
      ensures !binaries || iface == "" ==> !ok && table == old(table)
      ensures !ok && clears && binaries && iface != "" ==> Open(table[IPv4]) && Open(table[IPv6])
      ensures !ok && clears && old(Workable(binaries)) ==> table[IPv4] == NO_CHAINS == table[IPv6]
      ensures clears && adds ==> ok == old(Workable(binaries))
    {
      if !binaries || iface == "" {
        return false;
      }
      Teardown();
      ok := ApplyTable(IPv4);
      if !ok {
        Teardown();
        return;
      }
      ok := ApplyTable(IPv6);
      if !ok {
        Teardown();
        return;
      }
      enabled := true;
    }

    /** Grants are remembered even when they are not installed. For changed grants, an enabled manager that
        succeeds has installed exactly them; one that fails, with the tools there and removing working, has
        no rule left in either family, whatever was installed. */
    method SetPortGrants(gs: seq<PortGrant>, binaries: bool) returns (ok: bool)
      requires Valid()
      modifies this`table, this`enabled, this`portGrants
      ensures Valid()
      ensures portGrants == gs
      ensures gs == old(portGrants) || !old(enabled) ==> ok && table == old(table) && enabled == old(enabled)
      ensures ok && gs != old(portGrants) && old(enabled) ==>
              enabled && Installed(table[IPv4], ports, gs, IPv4) && Installed(table[IPv6], ports, gs, IPv6)
      ensures !ok ==> enabled == old(enabled)
      ensures !ok && (!binaries || iface == "") ==> table == old(table)
      ensures !ok && clears && binaries && iface != "" ==> Open(table[IPv4]) && Open(table[IPv6])
      ensures clears && adds && old(Workable(binaries)) ==> ok
      ensures clears && old(enabled && Workable(binaries)) ==> View() == Refreshed(ports, old(View()), gs, ok)
    {
      var same := GrantsEqual(portGrants, gs);
      if same {
        return true;
      }
      portGrants := gs;
      if !enabled {
        return true;
      }
      ok := Apply(binaries);
    }

    /** One tick of the watchdog: an enabled manager that misses an INPUT jump installs everything again.
        `ok` is whether that worked, or was not needed. */
    method WatchdogTick(binaries: bool) returns (ok: bool)
      requires Valid()
      modifies this`table, this`enabled
      ensures Valid() && enabled == old(enabled)
      ensures !old(enabled) ==> table == old(table)
      ensures clears && old(table)[IPv4].inputJumps > 0 && old(table)[IPv6].inputJumps > 0 ==> ok && table == old(table)
      ensures clears && adds && old(Workable(binaries)) ==> ok
      ensures clears && old(enabled && Workable(binaries)) ==> View() == Ticked(ports, old(View()), ok)
    {
      if !enabled {
        return true;
      }
      var present := HasInputJump(IPv4);
      if present {
        present := HasInputJump(IPv6);
      }
      ok := true;
      if !present {
        ok := Apply(binaries);
      }
    }

    method Stop()
      requires Valid()
      modifies this`table, this`enabled
      ensures Valid() && !enabled
      ensures !old(enabled) ==> table == old(table)
      ensures old(enabled) && clears ==>
              table == old(table)[IPv4 := TornDown(old(table)[IPv4])][IPv6 := TornDown(old(table)[IPv6])]
    {
      if !enabled {
        return;
      }
      Teardown();
      enabled := false;
    }

    static method GrantsEqual(a: seq<PortGrant>, b: seq<PortGrant>) returns (same: bool)
      ensures same == (a == b)
    {
      if |a| != |b| {
        return false;
      }
      for i := 0 to |a|
        invariant a[..i] == b[..i]
      {
        assert a[..i + 1] == a[..i] + [a[i]] && b[..i + 1] == b[..i] + [b[i]];
        if a[i].ip4 != b[i].ip4 || a[i].ip6 != b[i].ip6 || a[i].tcp != b[i].tcp || a[i].udp != b[i].udp {
          return false;
        }
      }
      assert a[..|a|] == a && b[..|b|] == b;
      return true;
    }
  }

  lemma {:induction false} InputShape(ports: seq<int>, gs: seq<PortGrant>, f: Family)
    ensures [] + [AcceptEstablished, AcceptIcmp] + ProxyRules(ports) + GrantRules(gs, f) + [DropAll]
            == InputRules(ports, gs, f)
  {
  }
}
