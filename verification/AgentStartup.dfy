/** The agent's startup as it runs: re-verification of the loaded ACL and reconcilePeers. */
module AgentStartup {
  import opened Base
  import opened Addresses
  import opened Allocator
  import opened Wire
  import opened Acl
  import opened Signing
  import opened DeviceState
  import opened Startup
  import opened TunnelHandlers
  import opened Restarts
  import opened Firewall
  import opened FirewallManager
  import Pf = ProvisionFacts
  import St = AclStore
  import L = Liveness

  /** The members of the file that count: with a pinned owner, those that re-verify. */
  function Certifiable(env: Env, log: Log, pin: Option<string>, ms: seq<Member>): seq<Member> {
    if pin.Some? then KeepCertified(env, log, ms) else ms
  }

  lemma {:induction false} NobodyDropped(ms: seq<Member>, verify: Member -> bool)
    requires Keep(ms, St.Failing(verify)) == []
    ensures Keep(ms, verify) == ms
  {
    if ms != [] {
      NobodyDropped(ms[..|ms| - 1], verify);
    }
  }

  /** With a pinned owner, members that do not re-verify are dropped; the file follows. */
  method Reverify(h: Handlers)
    requires h.Ready() && h.store.saved == h.store.members
    modifies h.store`members, h.store`saved, h.store`byTunnelIP, h.store`byMemberID, h.store`byEmailFull
    ensures h.Ready()
    ensures var ms := Certifiable(h.env, h.log, h.store.pin, old(h.store.members));
            h.View() == old(h.View()).(members := ms, saved := ms)
  {
    if h.store.pin.Some? {
      var dropped := h.store.DropMembersFailing(Certifier(h.env, h.log));
      if |dropped| > 0 {
        h.store.Save();
      } else {
        NobodyDropped(h.store.saved, Certifier(h.env, h.log));
      }
    }
  }

  method MarkEveryone(h: Handlers, ms: seq<Member>)
    modifies h.allocator
    ensures h.allocator.View() == MarkMembers(old(h.allocator.View()), ms)
  {
    for i := 0 to |ms|
      invariant h.allocator.View() == MarkMembers(old(h.allocator.View()), ms[..i])
    {
      assert ms[..i + 1][..i] == ms[..i];
      ghost var before := h.allocator.View();
      var cs := ms[i].clients;
      for j := 0 to |cs|
        invariant h.allocator.View() == MarkClients(before, cs[..j])
      {
        assert cs[..j + 1][..j] == cs[..j];
        h.allocator.MarkUsed(cs[j].key, cs[j].ip4);
      }
      assert cs[..|cs|] == cs;
    }
    assert ms[..|ms|] == ms;
  }

  ghost function RebuildOf(h: Handlers, failed: bool): Rebuild
    reads h, h.store`members, h.store`byTunnelIP, h.store`byMemberID, h.store`byEmailFull, h.allocator
  {
    Rebuild(h.allocator.View(), h.store.members, h.peers, failed)
  }

  /** One client of an active member; `failed` only records that something was skipped, `added` that the
      ACL was touched. */
  method Revive(h: Handlers, id: string, c: Client, addOk: bool, failed: bool) returns (nowFailed: bool, added: bool)
    requires h.store.Valid() && FirstMember(h.store.members, id) < |h.store.members|
    modifies h`peers, h.store`members, h.store`byTunnelIP, h.store`byMemberID, h.store`byEmailFull, h.allocator
    ensures h.store.Valid() && Pf.SamePeople(old(h.store.members), h.store.members)
    ensures RebuildOf(h, nowFailed) == ReviveClient(h.env, old(RebuildOf(h, failed)), id, c, addOk)
    ensures !added ==> h.store.members == old(h.store.members)
  {
    if c.key == "" {
      return failed, false;
    }
    var ip := Some(c.ip4);
    if c.ip4 == NoAddress || !InSubnet(h.allocator.View(), c.ip4) {
      ip := h.allocator.Allocate(c.key);
      if ip.None? {
        return true, false;
      }
    }
    if !addOk {
      return true, false;
    }
    h.peers := h.peers[c.key := ip.value];
    var rec := RevivedRecord(h.env, c, ip.value);
    Pf.AddRemoveSamePeople(h.store.members, id, rec);
    AddsUnlessBlank(h.store.members, id, rec);
    var _ := h.store.AddClient(id, rec);
    return failed, true;
  }

  lemma {:induction false} SamePeopleChain(ms: seq<Member>, ns: seq<Member>, rs: seq<Member>)
    requires Pf.SamePeople(ms, ns) && Pf.SamePeople(ns, rs)
    ensures Pf.SamePeople(ms, rs)
  {
  }

  lemma {:induction false} ReviveOneMoreClient(env: Env, b: Rebuild, id: string, cs: seq<Client>, i: nat, j: nat,
                                               addOk: AddOk)
    requires j < |cs|
    ensures ReviveClients(env, b, id, cs[..j + 1], i, addOk)
            == ReviveClient(env, ReviveClients(env, b, id, cs[..j], i, addOk), id, cs[j], addOk(i, j))
  {
    assert cs[..j + 1][..j] == cs[..j];
  }

  method ReviveMember(h: Handlers, ghost ms: seq<Member>, m: Member, i: nat, addOk: AddOk, failed: bool)
    returns (nowFailed: bool, added: bool)
    requires h.store.Valid() && Pf.SamePeople(ms, h.store.members) && i < |ms| && ms[i] == m
    modifies h`peers, h.store`members, h.store`byTunnelIP, h.store`byMemberID, h.store`byEmailFull, h.allocator
    ensures h.store.Valid() && Pf.SamePeople(ms, h.store.members)
    ensures RebuildOf(h, nowFailed) == ReviveClients(h.env, old(RebuildOf(h, failed)), m.id, m.clients, i, addOk)
    ensures !added ==> h.store.members == old(h.store.members)
  {
    nowFailed, added := failed, false;
    var cs := m.clients;
    for j := 0 to |cs|
      invariant h.store.Valid() && Pf.SamePeople(ms, h.store.members)
      invariant RebuildOf(h, nowFailed) == ReviveClients(h.env, old(RebuildOf(h, failed)), m.id, cs[..j], i, addOk)
      invariant !added ==> h.store.members == old(h.store.members)
    {
      ReviveOneMoreClient(h.env, old(RebuildOf(h, failed)), m.id, cs, i, j, addOk);
      Pf.StillListed(ms, h.store.members, i);
      ghost var before := h.store.members;
      var one: bool;
      nowFailed, one := Revive(h, m.id, cs[j], addOk(i, j), nowFailed);
      added := added || one;
      SamePeopleChain(ms, before, h.store.members);
    }
    assert cs[..|cs|] == cs;
  }

  lemma {:induction false} ReviveOneMore(env: Env, b: Rebuild, ms: seq<Member>, i: nat, addOk: AddOk)
    requires i < |ms|
    ensures var r := ReviveMembers(env, b, ms[..i], addOk);
            ReviveMembers(env, b, ms[..i + 1], addOk) == if ms[i].IsActive()
              then ReviveClients(env, r, ms[i].id, ms[i].clients, i, addOk) else r
  {
    assert ms[..i + 1][..i] == ms[..i];
  }

  /** `touched`: a client was added, or a suspended one skipped. */
  method ReviveAll(h: Handlers, ms: seq<Member>, addOk: AddOk) returns (failed: bool, touched: bool)
    requires h.store.Valid() && ms == h.store.members
    modifies h`peers, h.store`members, h.store`byTunnelIP, h.store`byMemberID, h.store`byEmailFull, h.allocator
    ensures h.store.Valid()
    ensures RebuildOf(h, failed) == ReviveMembers(h.env, old(RebuildOf(h, false)), ms, addOk)
    ensures !touched ==> h.store.members == ms
  {
    failed, touched := false, false;
    for i := 0 to |ms|
      invariant h.store.Valid() && Pf.SamePeople(ms, h.store.members)
      invariant RebuildOf(h, failed) == ReviveMembers(h.env, old(RebuildOf(h, false)), ms[..i], addOk)
      invariant !touched ==> h.store.members == ms
    {
      ReviveOneMore(h.env, old(RebuildOf(h, false)), ms, i, addOk);
      if ms[i].status != "" && ms[i].status != "active" {
        touched := touched || |ms[i].clients| > 0;
        continue;
      }
      var added: bool;
      failed, added := ReviveMember(h, ms, ms[i], i, addOk, failed);
      touched := touched || added;
    }
    assert ms[..|ms|] == ms;
  }

  /** Remove peers nobody active lists. */
  method RemoveStale(h: Handlers, valid: set<Key>) returns (removed: bool)
    requires Valid(h.allocator.View())
    modifies h`peers, h.allocator
    ensures h.peers == old(h.peers) - (old(h.peers).Keys - valid)
    ensures h.allocator.View() == ReleaseAll(old(h.allocator.View()), old(h.peers).Keys - valid)
  {
    ghost var a := h.allocator.View();
    var todo := h.peers.Keys;
    ghost var gone: set<Key> := {};
    ReleaseNone(a);
    assert old(h.peers) - {} == old(h.peers);
    removed := false;
    while todo != {}
      invariant todo <= old(h.peers).Keys && gone == old(h.peers).Keys - todo - valid
      invariant h.peers == old(h.peers) - gone && h.allocator.View() == ReleaseAll(a, gone)
      decreases |todo|
    {
      var k :| k in todo;
      todo := todo - {k};
      if k !in valid {
        removed := true;
        h.peers := h.peers - {k};
        h.allocator.Release(k);
        ReleaseAllOne(a, gone, k);
        assert old(h.peers) - gone - {k} == old(h.peers) - (gone + {k});
        gone := gone + {k};
      }
    }
    assert gone == old(h.peers).Keys - valid;
  }

  /** The passes of reconcilePeers; `touched` is whether they did anything worth saving. */
  method Realign(h: Handlers, addOk: AddOk) returns (failed: bool, touched: bool)
    requires h.Ready()
    modifies h`peers, h.allocator, h.store`members, h.store`byTunnelIP, h.store`byMemberID, h.store`byEmailFull
    ensures h.Ready() && (!touched ==> h.store.members == old(h.store.members))
    ensures var r := ReconcilePeers(h.env, old(h.allocator.View()), old(h.store.members), old(h.peers), addOk);
            failed == r.failed && h.View() == old(h.View()).(members := r.members, alloc := r.alloc, peers := r.peers)
  {
    var ms := h.store.members;
    MarkEveryone(h, ms);
    failed, touched := ReviveAll(h, ms, addOk);
    ReconcileSound(h.env, old(h.allocator.View()), ms, old(h.peers), addOk);
    var removed := RemoveStale(h, ActiveKeys(ms));
    touched := touched || removed;
  }

  /** reconcilePeers, which saves the ACL if it did anything, then the firewall grants of the result. */
  method Reconcile(h: Handlers, addOk: AddOk) returns (failed: bool)
    requires h.Ready() && h.store.saved == h.store.members
    modifies h`peers, h`grants, h.allocator
    modifies h.store`members, h.store`saved, h.store`byTunnelIP, h.store`byMemberID, h.store`byEmailFull
    ensures h.Ready()
    ensures var r := ReconcilePeers(h.env, old(h.allocator.View()), old(h.store.members), old(h.peers), addOk);
            && failed == r.failed
            && h.View() == old(h.View()).(members := r.members, saved := r.members, alloc := r.alloc, peers := r.peers,
                                          grants := Grants(r.members))
  {
    var touched: bool;
    failed, touched := Realign(h, addOk);
    if touched {
      h.store.Save();
    }
    h.grants := h.store.PortGrants();
  }

  /** reconcileFirewallGrants, after startup and after an applied push: the firewall is given the ACL's grants,
      and the agent only logs whether the rebuild worked. */
  method ReconcileFirewallGrants(h: Handlers, m: Manager, binaries: bool) returns (ok: bool)
    requires h.Ready() && m.Valid()
    modifies m`table, m`enabled, m`portGrants
    ensures m.Valid() && m.portGrants == Grants(h.store.members)
    ensures m.clears && old(m.enabled && m.Workable(binaries)) ==>
            m.View() == Refreshed(m.ports, old(m.View()), Grants(h.store.members), ok)
  {
    var gs := h.store.PortGrants();
    ok := m.SetPortGrants(gs, binaries);
  }

  /** Startup is the restart of the state machine: s is what the agent was, of which the files and the
      signatures survive; the allocator is as loaded. */
  method Start(h: Handlers, addOk: AddOk, ghost s: State, ghost boot: Time)
    requires h.Ready()
    requires h.View() == s.(members := h.store.members, appliedAt := WholeSeconds(s.appliedAt),
                            alloc := h.allocator.View(),
                            peers := map[], grants := [], live := L.Boot(boot), nonces := map[])
    modifies h`peers, h`grants, h.allocator
    modifies h.store`members, h.store`saved, h.store`byTunnelIP, h.store`byMemberID, h.store`byEmailFull
    ensures h.Ready()
    ensures h.View() == Restart(h.env, s, old(h.allocator.View()), boot, addOk)
  {
    h.store.Load();
    Reverify(h);
    var _ := Reconcile(h, addOk);
  }
}
