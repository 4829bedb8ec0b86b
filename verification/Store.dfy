/** The ACL store: the member list, three indexes of positions in it, and in-place edits. An index
    entry stands for the source's reference into the member slice, so it sees later edits of that
    element. */
module AclStore {
  import opened Base
  import opened Addresses
  import opened Allocator
  import opened Wire
  import A = Acl
  import opened Acl

  class Store {
    var members: seq<Member>
    var apps: seq<App>
    var byTunnelIP: map<Address, nat>
    var byMemberID: map<string, nat>
    var byEmailFull: map<string, nat>
    var pin: Option<string>
    var generation: int
    var lastAppliedAt: Time
    var saved: seq<Member>          // the members in the ACL file

    /** Each index answers every lookup as the scan does. */
    ghost predicate Valid()
      reads this
    {
      && Exact(members, byTunnelIP, Holds)
      && Exact(members, byMemberID, HasId)
      && Exact(members, byEmailFull, HasEmail)
    }

    constructor ()
      ensures Valid()
      ensures members == [] && apps == [] && pin == None && generation == 0 && lastAppliedAt == 0 && saved == []
    {
      members, apps, pin, generation, lastAppliedAt, saved := [], [], None, 0, 0, [];
      byTunnelIP, byMemberID, byEmailFull := map[], map[], map[];
    }

    method RebuildIndexes()
      modifies this`byTunnelIP, this`byMemberID, this`byEmailFull
      ensures Valid()
    {
      byTunnelIP, byMemberID, byEmailFull := map[], map[], map[];
      for i := 0 to |members|
        modifies this`byTunnelIP, this`byMemberID, this`byEmailFull
        invariant Exact(members[..i], byTunnelIP, Holds)
        invariant Exact(members[..i], byMemberID, HasId)
        invariant Exact(members[..i], byEmailFull, HasEmail)
      {
        var m := members[i];
        assert members[..i + 1] == members[..i] + [m];
        ghost var ips, ids, emails := byTunnelIP, byMemberID, byEmailFull;
        byMemberID := byMemberID[m.id := i];
        byTunnelIP := IndexClients(byTunnelIP, m.clients, i);
        var email := EmailKey(m.email);
        if email != "" {
          byEmailFull := byEmailFull[email := i];
        }
        ExactSnoc(members[..i], m, Holds, ips, byTunnelIP);
        ExactSnoc(members[..i], m, HasId, ids, byMemberID);
        ExactSnoc(members[..i], m, HasEmail, emails, byEmailFull);
      }
      assert members[..|members|] == members;
    }

    static method IndexClients(idx: map<Address, nat>, cs: seq<Client>, i: nat) returns (r: map<Address, nat>)
      ensures forall ip :: Get(r, ip) == if SomeClient(cs, ip) then Some(i) else Get(idx, ip)
    {
      r := idx;
      for j := 0 to |cs|
        invariant forall ip :: Get(r, ip) == if SomeClient(cs[..j], ip) then Some(i) else Get(idx, ip)
      {
        var c := cs[j];
        ghost var before := r;
        if c.ip4 != NoAddress {
          r := r[c.ip4 := i];
        }
        if c.ip6 != NoAddress {
          r := r[c.ip6 := i];
        }
        assert forall ip :: Get(r, ip) == if HasAddress(c, ip) then Some(i) else Get(before, ip);
        forall ip
          ensures Get(r, ip) == if SomeClient(cs[..j + 1], ip) then Some(i) else Get(idx, ip)
        {
          assert cs[..j + 1] == cs[..j] + [c];
          OneMoreClient(cs[..j], c, ip);
          assert Get(before, ip) == if SomeClient(cs[..j], ip) then Some(i) else Get(idx, ip);
        }
      }
      assert cs[..|cs|] == cs;
    }

    method LookupByMemberID(id: string) returns (r: Option<Member>)
      requires Valid()
      ensures r == Find(members, HasId, id)
    {
      assert Get(byMemberID, id) == LastMatch(members, HasId, id);
      if id in byMemberID {
        return Some(members[byMemberID[id]]);
      }
      return None;
    }

    method LookupByTunnelIP(ip: Address) returns (r: Option<Member>)
      requires Valid()
      ensures r == Find(members, Holds, ip)
    {
      assert Get(byTunnelIP, ip) == LastMatch(members, Holds, ip);
      if ip in byTunnelIP {
        return Some(members[byTunnelIP[ip]]);
      }
      return None;
    }

    method LookupByEmail(email: string) returns (r: Option<Member>)
      requires Valid()
      ensures r == Find(members, HasEmail, EmailKey(email))
    {
      assert Get(byEmailFull, EmailKey(email)) == LastMatch(members, HasEmail, EmailKey(email));
      if EmailKey(email) in byEmailFull {
        return Some(members[byEmailFull[EmailKey(email)]]);
      }
      return None;
    }

    method LookupClientByIP(ip: Address) returns (r: Option<(string, Client)>)
      requires Valid()
      ensures r.None? <==> Find(members, Holds, ip).None?
      ensures r.Some? ==> r.value.0 == Find(members, Holds, ip).value.id
                          && FirstAt(Find(members, Holds, ip).value.clients, ip, r.value.1)
    {
      var e := LookupByTunnelIP(ip);
      if e.Some? {
        for j := 0 to |e.value.clients|
          invariant forall k :: 0 <= k < j ==> !HasAddress(e.value.clients[k], ip)
        {
          if e.value.clients[j].ip4 == ip || e.value.clients[j].ip6 == ip {
            return Some((e.value.id, e.value.clients[j]));
          }
        }
      }
      return None;
    }

    // ---- authorisation queries ----

    method FindAppBySlug(slug: string, port: bool) returns (r: Option<App>)
      ensures r == CatalogueApp(members, apps, port, slug)
    {
      for i := 0 to |apps|
        invariant FirstApp(apps, port, slug) == FirstApp(apps[i..], port, slug)
      {
        if apps[i].IsPort() == port && apps[i].slug == slug {
          return Some(apps[i]);
        }
      }
      for i := 0 to |members|
        invariant FirstApp(apps, port, slug).None?
        invariant FirstMemberApp(members, port, slug) == FirstMemberApp(members[i..], port, slug)
      {
        assert members[i..][0] == members[i] && members[i..][1..] == members[i + 1..];
        var granted := members[i].apps;
        for j := 0 to |granted|
          invariant FirstApp(granted, port, slug) == FirstApp(granted[j..], port, slug)
        {
          if granted[j].IsPort() == port && granted[j].slug == slug {
            return Some(granted[j]);
          }
        }
      }
      return None;
    }

    method IsAppAllowed(sourceIP: Address, slug: string) returns (r: Option<App>)
      requires Valid()
      ensures r == ProxyApp(members, apps, sourceIP, slug)
    {
      var member := LookupByTunnelIP(sourceIP);
      if member.None? {
        return None;
      }
      var m := member.value;
      if m.status != "" && m.status != "active" {
        return None;
      }
      if m.role == "admin" || m.role == "owner" {
        r := FindAppBySlug(slug, false);
        return;
      }
      for i := 0 to |m.apps|
        invariant FirstApp(m.apps, false, slug) == FirstApp(m.apps[i..], false, slug)
      {
        if m.apps[i].IsPort() {
          continue;
        }
        if m.apps[i].slug == slug {
          return Some(m.apps[i]);
        }
      }
      return None;
    }

    method IsPortAppAllowed(sourceIP: Address, slug: string) returns (r: Option<App>)
      requires Valid()
      ensures r == PortApp(members, sourceIP, slug)
    {
      var member := LookupByTunnelIP(sourceIP);
      if member.None? {
        return None;
      }
      var m := member.value;
      if m.status != "" && m.status != "active" {
        return None;
      }
      for i := 0 to |m.apps|
        invariant FirstApp(m.apps, true, slug) == FirstApp(m.apps[i..], true, slug)
      {
        if m.apps[i].IsPort() && m.apps[i].slug == slug {
          return Some(m.apps[i]);
        }
      }
      return None;
    }

    method PortGrants() returns (grants: seq<PortGrant>)
      ensures grants == Grants(members)
    {
      grants := [];
      for i := 0 to |members|
        invariant grants == Grants(members[..i])
      {
        var m := members[i];
        assert members[..i + 1][..i] == members[..i];
        if m.status != "" && m.status != "active" {
          continue;
        }
        var tcp, udp := OpenPorts(m.apps);
        if |tcp| == 0 && |udp| == 0 {
          continue;
        }
        var more := GrantEach(m.clients, tcp, udp);
        grants := grants + more;
      }
      assert members[..|members|] == members;
    }

    static method OpenPorts(apps: seq<App>) returns (tcp: seq<int>, udp: seq<int>)
      ensures tcp == TcpPorts(apps) && udp == UdpPorts(apps)
    {
      tcp, udp := [], [];
      for j := 0 to |apps|
        invariant tcp == TcpPorts(apps[..j]) && udp == UdpPorts(apps[..j])
      {
        var app := apps[j];
        assert apps[..j + 1][..j] == apps[..j];
        if !app.IsPort() || app.port < 1 || app.port > 65535 {
          continue;
        }
        if app.protocol == "tcp" || app.protocol == "http" || app.protocol == "https" {
          tcp := tcp + [app.port];
        } else if app.protocol == "udp" {
          udp := udp + [app.port];
        }
      }
      assert apps[..|apps|] == apps;
    }

    static method GrantEach(cs: seq<Client>, tcp: seq<int>, udp: seq<int>) returns (grants: seq<PortGrant>)
      ensures grants == ClientGrants(cs, tcp, udp)
    {
      grants := [];
      for j := 0 to |cs|
        invariant grants == ClientGrants(cs[..j], tcp, udp)
      {
        assert cs[..j + 1][..j] == cs[..j];
        if cs[j].ip4 == NoAddress {
          continue;
        }
        grants := grants + [PortGrant(cs[j].ip4, cs[j].ip6, tcp, udp)];
      }
      assert cs[..|cs|] == cs;
    }

    // ---- whole-list replacement ----

    method ValidateAdminPin(ms: seq<Member>) returns (ok: bool)
      ensures ok == PinOk(pin, ms)
    {
      if pin.None? {
        return true;
      }
      for i := 0 to |ms|
        invariant PinOk(pin, ms[..i])
      {
        assert ms[..i + 1][..i] == ms[..i];
        if ms[i].role != "admin" && ms[i].role != "owner" {
          continue;
        }
        if ms[i].identityKey == "" {
          return false;
        }
        if ms[i].identityKey != pin.value {
          return false;
        }
      }
      return true;
    }

    method ReplaceAll(ms: seq<Member>) returns (ok: bool)
      modifies this`members, this`byTunnelIP, this`byMemberID, this`byEmailFull
      ensures ok == PinOk(pin, ms)
      ensures members == (if ok then ms else old(members))
      ensures ok || old(Valid()) ==> Valid()
    {
      ok := ValidateAdminPin(ms);
      if ok {
        members := ms;
        RebuildIndexes();
      }
    }

    /** Swap in new members and apps and report exactly what disappeared. */
    method Reconcile(ms: seq<Member>, newApps: seq<App>)
      returns (removedMembers: seq<Member>, removedKeys: seq<Key>, removedAppIds: seq<string>, ok: bool)
      requires Valid()
      modifies this`members, this`apps, this`byTunnelIP, this`byMemberID, this`byEmailFull
      ensures Valid()
      ensures ok == PinOk(pin, ms)
      ensures !ok ==> unchanged(this) && removedMembers == [] && removedKeys == [] && removedAppIds == []
      ensures ok ==> members == ms && apps == newApps
      ensures ok ==> NoDuplicates(removedKeys)
                     && (set k | k in removedKeys) == ClientKeys(old(members)) - ClientKeys(ms)
      ensures ok ==> removedMembers == Keep(old(members), Gone(ms)) && removedAppIds == GoneApps(old(apps), newApps)
    {
      removedMembers, removedKeys, removedAppIds := [], [], [];
      ok := ValidateAdminPin(ms);
      if !ok {
        return;
      }
      removedMembers, removedKeys := Disappeared(members, ms);
      removedAppIds := RemovedApps(apps, newApps);
      members := ms;
      apps := newApps;
      RebuildIndexes();
    }

    static method Disappeared(olds: seq<Member>, ms: seq<Member>) returns (removedMembers: seq<Member>,
                                                                           removedKeys: seq<Key>)
      ensures removedMembers == Keep(olds, Gone(ms))
      ensures NoDuplicates(removedKeys)
      ensures (set k | k in removedKeys) == ClientKeys(olds) - ClientKeys(ms)
    {
      removedMembers, removedKeys := [], [];
      var next, nextKeys := NextIds(ms);
      var seenRemoved: set<Key> := {};
      for i := 0 to |olds|
        invariant removedMembers == Keep(olds[..i], Gone(ms))
        invariant seenRemoved == (set k | k in removedKeys) == ClientKeys(olds[..i]) - nextKeys
        invariant NoDuplicates(removedKeys)
      {
        var prev := olds[i];
        assert olds[..i + 1] == olds[..i] + [prev] && olds[..i + 1][..i] == olds[..i];
        if prev.id !in next {
          removedMembers := removedMembers + [prev];
        }
        ghost var before := seenRemoved;
        for j := 0 to |prev.clients|
          invariant seenRemoved == (set k | k in removedKeys)
          invariant seenRemoved == before + (KeysOf(prev.clients[..j]) - nextKeys)
          invariant NoDuplicates(removedKeys)
        {
          var k := prev.clients[j].key;
          KeysOfSnoc(prev.clients, j);
          if k == "" || k in nextKeys || k in seenRemoved {
            continue;
          }
          seenRemoved := seenRemoved + {k};
          removedKeys := removedKeys + [k];
        }
        assert prev.clients[..|prev.clients|] == prev.clients;
        ClientKeysSnoc(olds[..i], prev);
      }
      assert olds[..|olds|] == olds;
    }

    static method NextIds(ms: seq<Member>) returns (next: set<string>, nextKeys: set<Key>)
      ensures forall id :: id in next <==> AnyId(ms, id)
      ensures nextKeys == ClientKeys(ms)
    {
      next, nextKeys := {}, {};
      for i := 0 to |ms|
        invariant forall id :: id in next <==> AnyId(ms[..i], id)
        invariant nextKeys == ClientKeys(ms[..i])
      {
        var m := ms[i];
        assert ms[..i + 1] == ms[..i] + [m];
        next := next + {m.id};
        for j := 0 to |m.clients|
          invariant nextKeys == ClientKeys(ms[..i]) + KeysOf(m.clients[..j])
        {
          KeysOfSnoc(m.clients, j);
          if m.clients[j].key != "" {
            nextKeys := nextKeys + {m.clients[j].key};
          }
        }
        assert m.clients[..|m.clients|] == m.clients;
        ClientKeysSnoc(ms[..i], m);
      }
      assert ms[..|ms|] == ms;
    }

    static method RemovedApps(apps: seq<App>, newApps: seq<App>) returns (removed: seq<string>)
      ensures removed == GoneApps(apps, newApps)
    {
      var nextApps: set<string> := {};
      for i := 0 to |newApps|
        invariant forall id :: id in nextApps <==> AnyApp(newApps[..i], id)
      {
        assert newApps[..i + 1] == newApps[..i] + [newApps[i]];
        nextApps := nextApps + {newApps[i].id};
      }
      assert newApps[..|newApps|] == newApps;
      removed := [];
      for i := 0 to |apps|
        invariant removed == GoneApps(apps[..i], newApps)
      {
        assert apps[..i + 1][..i] == apps[..i];
        if apps[i].id !in nextApps {
          removed := removed + [apps[i].id];
        }
      }
      assert apps[..|apps|] == apps;
    }

    // ---- single-member edits ----

    method UpsertMember(m: Member) returns (ok: bool)
      requires Valid()
      modifies this`members, this`byTunnelIP, this`byMemberID, this`byEmailFull
      ensures Valid()
      ensures ok == PinOk(pin, [m])
      ensures members == if ok then Upsert(old(members), m) else old(members)
    {
      ok := ValidateAdminPin([m]);
      if !ok {
        return;
      }
      for i := 0 to |members|
        invariant forall k :: 0 <= k < i ==> members[k].id != m.id
      {
        if members[i].id == m.id {
          FirstMemberIs(members, m.id, i);
          var existing := members[i].clients;
          if |m.clients| == 0 {
            members := members[i := m.(clients := existing)];
          } else {
            var merged := m.clients;
            for j := 0 to |m.clients|
              invariant |merged| == |m.clients|
              invariant merged[j..] == m.clients[j..]
              invariant forall k :: 0 <= k < j ==> merged[k] == MergeClients(existing, m.clients)[k]
            {
              assert merged[j] == m.clients[j];
              var prev := LastClient(existing, merged[j].key);
              if prev.None? {
                continue;
              }
              merged := merged[j := CarryOver(merged[j], prev.value)];
            }
            assert merged == MergeClients(existing, m.clients);
            members := members[i := m.(clients := merged)];
          }
          RebuildIndexes();
          return;
        }
      }
      FirstMemberIs(members, m.id, |members|);
      members := members + [m];
      RebuildIndexes();
    }

    method SetAllowedApps(id: string, allowed: seq<App>) returns (ok: bool)
      requires Valid()
      modifies this`members, this`byTunnelIP, this`byMemberID, this`byEmailFull
      ensures Valid()
      ensures var i := FirstMember(old(members), id);
              ok == (i < |old(members)|) &&
              members == if ok then old(members)[i := old(members)[i].(apps := allowed)] else old(members)
    {
      for i := 0 to |members|
        invariant forall k :: 0 <= k < i ==> members[k].id != id
      {
        if members[i].id == id {
          FirstMemberIs(members, id, i);
          members := members[i := members[i].(apps := allowed)];
          RebuildIndexes();
          return true;
        }
      }
      FirstMemberIs(members, id, |members|);
      return false;
    }

    method SetMemberStatus(id: string, status: string) returns (clients: seq<Client>, ok: bool)
      requires Valid()
      modifies this`members, this`byTunnelIP, this`byMemberID, this`byEmailFull
      ensures Valid()
      ensures var i := FirstMember(old(members), id);
              ok == (i < |old(members)|) &&
              (ok ==> members == old(members)[i := old(members)[i].(status := status)]) &&
              (ok ==> clients == members[i].clients) &&
              (!ok ==> members == old(members) && clients == [])
    {
      for i := 0 to |members|
        invariant forall k :: 0 <= k < i ==> members[k].id != id
      {
        if members[i].id == id {
          FirstMemberIs(members, id, i);
          members := members[i := members[i].(status := status)];
          clients, ok := members[i].clients, true;
          RebuildIndexes();
          return;
        }
      }
      FirstMemberIs(members, id, |members|);
      return [], false;
    }

    /** On success the indexes are rebuilt. On failure they are left as they were, over members that
        may have lost clients: `UnknownMemberStaleness` says when that matters. */
    method AddClient(id: string, rec: Client) returns (ok: bool)
      requires Valid()
      modifies this`members, this`byTunnelIP, this`byMemberID, this`byEmailFull
      ensures (ok, members) == A.AddClient(old(members), id, rec)
      ensures ok || rec.key == "" ==> Valid()
      ensures !ok ==> unchanged(`byTunnelIP) && unchanged(`byMemberID) && unchanged(`byEmailFull)
    {
      if rec.key == "" {
        return false;
      }
      StripFromOthers(id, rec);
      ghost var st := members;
      for i := 0 to |members|
        invariant forall k :: 0 <= k < i ==> members[k].id != id
      {
        if members[i].id != id {
          continue;
        }
        FirstMemberIs(st, id, i);
        var cs := members[i].clients;
        for j := 0 to |cs|
          invariant forall k :: 0 <= k < j ==> cs[k].key != rec.key
        {
          if cs[j].key == rec.key {
            FirstClientIs(cs, rec.key, j);
            members := members[i := members[i].(clients := cs[j := FillBlanks(rec, cs[j])])];
            RebuildIndexes();
            return true;
          }
        }
        FirstClientIs(cs, rec.key, |cs|);
        members := members[i := members[i].(clients := cs + [rec])];
        RebuildIndexes();
        return true;
      }
      FirstMemberIs(st, id, |st|);
      return false;
    }

    method StripFromOthers(id: string, rec: Client)
      modifies this`members
      ensures members == StripOthers(old(members), id, rec)
    {
      for i := 0 to |members|
        invariant |members| == |old(members)|
        invariant forall k :: 0 <= k < i ==> members[k] == StripOthers(old(members), id, rec)[k]
        invariant forall k :: i <= k < |members| ==> members[k] == old(members)[k]
      {
        if members[i].id == id {
          continue;
        }
        var kept := Strip(members[i].clients, rec);
        members := members[i := members[i].(clients := kept)];
      }
    }

    static method Strip(cs: seq<Client>, rec: Client) returns (kept: seq<Client>)
      ensures kept == Kept(cs, rec)
    {
      kept := [];
      for j := 0 to |cs|
        invariant kept == Kept(cs[..j], rec)
      {
        assert cs[..j + 1][..j] == cs[..j];
        if cs[j].key == rec.key {
          continue;
        }
        if rec.ip4 != NoAddress && cs[j].ip4 == rec.ip4 {
          continue;
        }
        kept := kept + [cs[j]];
      }
      assert cs[..|cs|] == cs;
    }

    method RemoveClient(id: string, k: Key) returns (removed: bool)
      requires Valid()
      modifies this`members, this`byTunnelIP, this`byMemberID, this`byEmailFull
      ensures Valid()
      ensures (removed, members) == A.RemoveClient(old(members), id, k)
    {
      for i := 0 to |members|
        invariant members == old(members) && Valid()
        invariant forall l :: 0 <= l < i ==> members[l].id != id
      {
        if members[i].id != id {
          continue;
        }
        FirstMemberIs(members, id, i);
        var kept, some := FilterKey(members[i].clients, k);
        removed := some;
        members := members[i := members[i].(clients := kept)];
        if removed {
          RebuildIndexes();
        } else {
          assert members == old(members);
        }
        return;
      }
      FirstMemberIs(members, id, |members|);
      return false;
    }

    static method FilterKey(cs: seq<Client>, k: Key) returns (kept: seq<Client>, removed: bool)
      ensures kept == WithoutKey(cs, k)
      ensures removed == (FirstClient(cs, k) < |cs|)
      ensures !removed ==> kept == cs
    {
      kept, removed := [], false;
      for j := 0 to |cs|
        invariant kept == WithoutKey(cs[..j], k)
        invariant !removed <==> forall l :: 0 <= l < j ==> cs[l].key != k
      {
        assert cs[..j + 1][..j] == cs[..j];
        if cs[j].key == k {
          removed := true;
          continue;
        }
        kept := kept + [cs[j]];
      }
      assert cs[..|cs|] == cs;
      if !removed {
        WithoutAbsentKey(cs, k);
      }
    }

    method RemoveMember(id: string)
      requires Valid()
      modifies this`members, this`byTunnelIP, this`byMemberID, this`byEmailFull
      ensures Valid()
      ensures var i := FirstMember(old(members), id);
              members == if i == |old(members)| then old(members) else old(members)[..i] + old(members)[i + 1..]
    {
      var i := 0;
      while i < |members| && members[i].id != id
        invariant i <= |members|
        invariant forall k :: 0 <= k < i ==> members[k].id != id
      {
        i := i + 1;
      }
      FirstMemberIs(members, id, i);
      if i < |members| {
        members := members[..i] + members[i + 1..];
      }
      RebuildIndexes();
    }

    /** Keeps exactly the members that verify, in order; rebuilds only if somebody was dropped. */
    method DropMembersFailing(verify: Member -> bool) returns (dropped: seq<Member>)
      requires Valid()
      modifies this`members, this`byTunnelIP, this`byMemberID, this`byEmailFull
      ensures Valid()
      ensures members == Keep(old(members), verify)
      ensures dropped == Keep(old(members), Failing(verify))
    {
      var kept := [];
      dropped := [];
      for i := 0 to |members|
        invariant kept == Keep(members[..i], verify)
        invariant dropped == Keep(members[..i], Failing(verify))
        invariant dropped == [] ==> kept == members[..i]
      {
        assert members[..i + 1][..i] == members[..i];
        if verify(members[i]) {
          kept := kept + [members[i]];
        } else {
          dropped := dropped + [members[i]];
        }
      }
      assert members[..|members|] == members;
      if dropped == [] {
        return;
      }
      members := kept;
      RebuildIndexes();
    }

    // ---- app edits, which do not rebuild ----

    method SetAppDefinitions(defs: seq<App>)
      requires Valid()
      modifies this`members, this`apps
      ensures Valid()
      ensures |members| == |old(members)|
      ensures forall i :: 0 <= i < |members| ==>
              members[i] == old(members)[i].(apps := Redefine(old(members)[i].apps, defs))
      ensures apps == PutApps(old(apps), defs)
    {
      apps := UpsertApps(apps, defs);
      for i := 0 to |members|
        invariant |members| == |old(members)| && apps == PutApps(old(apps), defs)
        invariant forall k :: 0 <= k < i ==>
                  members[k] == old(members)[k].(apps := Redefine(old(members)[k].apps, defs))
        invariant forall k :: i <= k < |members| ==> members[k] == old(members)[k]
      {
        var granted := Mirror(members[i].apps, defs);
        members := members[i := members[i].(apps := granted)];
      }
      StillExact(old(members), members, byTunnelIP, byMemberID, byEmailFull);
    }

    static method UpsertApps(olds: seq<App>, defs: seq<App>) returns (apps: seq<App>)
      ensures apps == PutApps(olds, defs)
    {
      apps := olds;
      for d := 0 to |defs|
        invariant apps == PutApps(olds, defs[..d])
      {
        assert defs[..d + 1][..d] == defs[..d];
        var i := 0;
        while i < |apps| && apps[i].id != defs[d].id
          invariant i <= |apps|
          invariant forall k :: 0 <= k < i ==> apps[k].id != defs[d].id
        {
          i := i + 1;
        }
        assert FirstAppById(apps, defs[d].id) == i;
        if i < |apps| {
          apps := apps[i := defs[d]];
        } else {
          apps := apps + [defs[d]];
        }
      }
      assert defs[..|defs|] == defs;
    }

    static method Mirror(apps: seq<App>, defs: seq<App>) returns (granted: seq<App>)
      ensures granted == Redefine(apps, defs)
    {
      granted := apps;
      for j := 0 to |apps|
        invariant |granted| == |apps|
        invariant forall k :: 0 <= k < j ==> granted[k] == Redefine(apps, defs)[k]
        invariant forall k :: j <= k < |apps| ==> granted[k] == apps[k]
      {
        var a := LastAppById(defs, granted[j].id);
        if a.Some? {
          granted := granted[j := a.value];
        }
      }
    }

    method RemoveAppByID(id: string) returns (removed: nat)
      requires Valid()
      modifies this`members, this`apps
      ensures Valid()
      ensures apps == WithoutApp(old(apps), id)
      ensures |members| == |old(members)|
      ensures forall i :: 0 <= i < |members| ==>
              members[i] == old(members)[i].(apps := WithoutApp(old(members)[i].apps, id))
      ensures removed == AppCount(old(members)) - AppCount(members)
    {
      apps := FilterApps(apps, id);
      removed := FilterMembers(id);
      StillExact(old(members), members, byTunnelIP, byMemberID, byEmailFull);
    }

    method FilterMembers(id: string) returns (removed: nat)
      modifies this`members
      ensures |members| == |old(members)|
      ensures forall i :: 0 <= i < |members| ==>
              members[i] == old(members)[i].(apps := WithoutApp(old(members)[i].apps, id))
      ensures removed == AppCount(old(members)) - AppCount(members)
    {
      removed := 0;
      for i := 0 to |members|
        invariant |members| == |old(members)|
        invariant forall k :: 0 <= k < i ==>
                  members[k] == old(members)[k].(apps := WithoutApp(old(members)[k].apps, id))
        invariant forall k :: i <= k < |members| ==> members[k] == old(members)[k]
        invariant removed == AppCount(old(members)[..i]) - AppCount(members[..i])
      {
        ghost var before := members;
        var filtered := FilterApps(members[i].apps, id);
        removed := removed + (|members[i].apps| - |filtered|);
        members := members[i := members[i].(apps := filtered)];
        AppCountSnoc(before, members, i);
        AppCountSnoc(old(members), old(members), i);
      }
      assert members[..|members|] == members && old(members)[..|members|] == old(members);
    }

    static method FilterApps(apps: seq<App>, id: string) returns (kept: seq<App>)
      ensures kept == WithoutApp(apps, id)
    {
      kept := [];
      for i := 0 to |apps|
        invariant kept == WithoutApp(apps[..i], id)
      {
        assert apps[..i + 1][..i] == apps[..i];
        if apps[i].id != id {
          kept := kept + [apps[i]];
        }
      }
      assert apps[..|apps|] == apps;
    }

    // ---- pin and generation ----

    /** `pub` is the base64 text of a key of `size` bytes. A key of the wrong size is refused, and so is a
        second pin. */
    method SetPinnedAdminPublicKey(pub: string, size: nat) returns (ok: bool)
      modifies this`pin
      ensures ok == (size == PUBLIC_KEY_SIZE && old(pin).None?)
      ensures pin == if ok then Some(pub) else old(pin)
    {
      if size != PUBLIC_KEY_SIZE {
        return false;
      }
      if pin.Some? {
        return false;
      }
      pin := Some(pub);
      return true;
    }

    method ClearPinnedAdminPublicKey()
      modifies this`pin
      ensures pin == None
    {
      pin := None;
    }

    method SetAppliedGeneration(gen: int, at: Time)
      modifies this`generation, this`lastAppliedAt
      ensures generation == gen && lastAppliedAt == at
    {
      generation, lastAppliedAt := gen, at;
    }

    method Save()
      modifies this`saved
      ensures saved == members
    {
      saved := members;
    }

    method Load()
      modifies this`members, this`byTunnelIP, this`byMemberID, this`byEmailFull
      ensures Valid() && members == saved
    {
      members := saved;
      RebuildIndexes();
    }
  }

  // ---- helpers ----

  predicate AnyId(ms: seq<Member>, id: string) {
    exists i :: 0 <= i < |ms| && ms[i].id == id
  }

  const PUBLIC_KEY_SIZE := 32

  function Failing(verify: Member -> bool): Member -> bool {
    (m: Member) => !verify(m)
  }

  /** No new entry has the member's id. */
  function Gone(ms: seq<Member>): Member -> bool {
    (m: Member) => !AnyId(ms, m.id)
  }

  /** The ids that have no new definition, in order. */
  function GoneApps(apps: seq<App>, newApps: seq<App>): seq<string> {
    if apps == [] then []
    else
      var front, id := GoneApps(apps[..|apps| - 1], newApps), apps[|apps| - 1].id;
      if AnyApp(newApps, id) then front else front + [id]
  }

  /** c is the first of the clients at this address. */
  predicate FirstAt(cs: seq<Client>, ip: Address, c: Client) {
    exists j :: 0 <= j < |cs| && cs[j] == c && HasAddress(c, ip) && forall k :: 0 <= k < j ==> !HasAddress(cs[k], ip)
  }

  predicate AnyApp(apps: seq<App>, id: string) {
    exists i :: 0 <= i < |apps| && apps[i].id == id
  }

  function AppCount(ms: seq<Member>): nat {
    if ms == [] then 0 else AppCount(ms[..|ms| - 1]) + |ms[|ms| - 1].apps|
  }

  lemma {:induction false} AppCountSnoc(ms: seq<Member>, ns: seq<Member>, i: nat)
    requires i < |ms| == |ns| && ms[..i] == ns[..i]
    ensures AppCount(ns[..i + 1]) == AppCount(ms[..i]) + |ns[i].apps|
  {
    assert ns[..i + 1][..i] == ms[..i];
  }

  /** One more member: the index either answers with it or as before. */
  lemma {:induction false} ExactSnoc<K(!new)>(ms: seq<Member>, m: Member, has: (Member, K) -> bool, before: map<K, nat>,
                                              after: map<K, nat>)
    requires Exact(ms, before, has)
    requires forall k :: Get(after, k) == if has(m, k) then Some(|ms|) else Get(before, k)
    ensures Exact(ms + [m], after, has)
  {
  }

  lemma {:induction false} OneMoreClient(cs: seq<Client>, c: Client, ip: Address)
    ensures SomeClient(cs + [c], ip) == (SomeClient(cs, ip) || HasAddress(c, ip))
  {
    var ds := cs + [c];
    assert ds[|cs|] == c;
    if j :| 0 <= j < |cs| && HasAddress(cs[j], ip) {
      assert ds[j] == cs[j];
    }
  }

  lemma {:induction false} FirstMemberIs(ms: seq<Member>, id: string, i: nat)
    requires i <= |ms| && (i < |ms| ==> ms[i].id == id) && forall k :: 0 <= k < i ==> ms[k].id != id
    ensures FirstMember(ms, id) == i
  {
  }

  lemma {:induction false} FirstClientIs(cs: seq<Client>, k: Key, j: nat)
    requires j <= |cs| && (j < |cs| ==> cs[j].key == k) && forall l :: 0 <= l < j ==> cs[l].key != k
    ensures FirstClient(cs, k) == j
  {
  }

  lemma {:induction false} StillExact(ms: seq<Member>, ns: seq<Member>, byIp: map<Address, nat>, byId: map<string, nat>,
                                      byEmail: map<string, nat>)
    requires |ms| == |ns|
    requires forall i :: 0 <= i < |ms| ==>
             ms[i].id == ns[i].id && ms[i].clients == ns[i].clients && ms[i].email == ns[i].email
    requires Exact(ms, byIp, Holds) && Exact(ms, byId, HasId) && Exact(ms, byEmail, HasEmail)
    ensures Exact(ns, byIp, Holds) && Exact(ns, byId, HasId) && Exact(ns, byEmail, HasEmail)
  {
    forall ip
      ensures Get(byIp, ip) == LastMatch(ns, Holds, ip)
    {
      AppsDoNotMatter(ms, ns, ip, "");
    }
    forall s
      ensures Get(byId, s) == LastMatch(ns, HasId, s) && Get(byEmail, s) == LastMatch(ns, HasEmail, s)
    {
      AppsDoNotMatter(ms, ns, NoAddress, s);
    }
  }
}
