/** Restarting. The ACL file holds what was last saved, the allocation file whatever the last clean shutdown
    wrote, and the peer table is empty. */
module Restarts {
  import opened Base
  import opened Addresses
  import opened Allocator
  import opened Wire
  import opened Acl
  import opened Signing
  import opened DeviceState
  import opened Addressing
  import opened Peering
  import opened Membership
  import opened Startup
  import opened SavedAcl
  import Pf = ProvisionFacts
  import L = Liveness

  /** The file keeps times in whole seconds. */
  function WholeSeconds(t: Time): Time {
    t / SECOND * SECOND
  }

  /** Startup over what the files hold; `b` is the allocator as loaded. It saves what it arrives at. */
  function Restart(env: Env, s: State, b: Alloc, boot: Time, addOk: AddOk): State {
    var ms := if s.pin.Some? then KeepCertified(env, s.log, s.saved) else s.saved;
    var r := ReconcilePeers(env, b, ms, map[], addOk);
    State(r.members, s.apps, s.pin, s.generation, WholeSeconds(s.appliedAt), r.members, r.alloc, r.peers,
          Grants(r.members), s.log, L.Boot(boot), map[])
  }

  /** The file gives no client's address to another key. */
  ghost predicate NobodyStolen(b: Alloc, ms: seq<Member>) {
    forall i :: 0 <= i < |ms| ==> NoneStolen(b, ms[i].clients)
  }

  /** b was loaded from some allocation file by an agent on a's subnet. */
  ghost predicate LoadedOn(a: Alloc, b: Alloc) {
    && b.net == a.net && b.server == a.server && Valid(b) && Canonical(b)
    && b.used == Reserved(b.net, b.server) + b.bound.Values
  }

  // ---- marking every client of an ACL that agreed with allocator a ----

  /** The clients ks have their old bindings back; the rest is as the file had it. */
  ghost predicate Overlaid(a: Alloc, b: Alloc, ks: set<Key>, m: Alloc) {
    && m.net == b.net && m.server == b.server && ks <= a.bound.Keys
    && m.bound.Keys == b.bound.Keys + ks
    && (forall k :: k in m.bound ==> m.bound[k] == if k in ks then a.bound[k] else b.bound[k])
    && (forall ip :: ip in m.used ==> ip in b.used || exists k :: k in ks && a.bound[k] == ip)
  }

  lemma {:induction false} OverlayOne(server6: Address, a: Alloc, b: Alloc, ks: set<Key>, m: Alloc, c: Client)
    requires Valid(a) && Canonical(a) && LoadedOn(a, b) && Overlaid(a, b, ks, m)
    requires c.key != "" && Agrees(server6, a, c) && NotStolen(b, c)
    ensures Overlaid(a, b, ks + {c.key}, MarkUsed(m, c.key, c.ip4))
  {
    assert Holdable(a, c.ip4);
    if c.ip4 in m.used {
      if c.ip4 in b.used {
        assert c.ip4 in b.bound.Values;
        var l :| l in b.bound && b.bound[l] == c.ip4;
        assert l == c.key;
      }
    }
  }

  lemma {:induction false} OverlayClients(server6: Address, a: Alloc, b: Alloc, ks: set<Key>, m: Alloc, cs: seq<Client>)
    requires Valid(a) && Canonical(a) && LoadedOn(a, b) && Overlaid(a, b, ks, m)
    requires AllAgree(server6, a, cs) && NoneStolen(b, cs)
    ensures Overlaid(a, b, ks + KeysOf(cs), MarkClients(m, cs))
  {
    if cs == [] {
      assert ks + KeysOf(cs) == ks;
    } else {
      var n := |cs| - 1;
      OverlayClients(server6, a, b, ks, m, cs[..n]);
      assert Agrees(server6, a, cs[n]) && NotStolen(b, cs[n]);
      KeysOfSnoc(cs, n);
      assert cs[..n + 1] == cs;
      if cs[n].key == "" {
        assert ks + KeysOf(cs) == ks + KeysOf(cs[..n]);
      } else {
        OverlayOne(server6, a, b, ks + KeysOf(cs[..n]), MarkClients(m, cs[..n]), cs[n]);
        assert ks + KeysOf(cs) == ks + KeysOf(cs[..n]) + {cs[n].key};
      }
    }
  }

  lemma {:induction false} OverlayMembers(server6: Address, a: Alloc, b: Alloc, ms: seq<Member>)
    requires Valid(a) && Canonical(a) && LoadedOn(a, b) && MembersAgree(server6, a, ms) && NobodyStolen(b, ms)
    ensures Overlaid(a, b, ClientKeys(ms), MarkMembers(b, ms))
  {
    if ms == [] {
      assert ClientKeys(ms) == {};
    } else {
      var n := |ms| - 1;
      OverlayMembers(server6, a, b, ms[..n]);
      OverlayClients(server6, a, b, ClientKeys(ms[..n]), MarkMembers(b, ms[..n]), ms[n].clients);
      ClientKeysSnoc(ms[..n], ms[n]);
      assert ms[..n] + [ms[n]] == ms;
    }
  }

  // ---- an address the file gave away stays given away ----

  predicate Lost(m: Alloc, c: Client) {
    c.ip4 in m.used && !(c.key in m.bound && m.bound[c.key] == c.ip4)
  }

  lemma {:induction false} LostInClients(m: Alloc, cs: seq<Client>, c: Client)
    requires Lost(m, c)
    ensures Lost(MarkClients(m, cs), c)
  {
    if cs != [] {
      LostInClients(m, cs[..|cs| - 1], c);
    }
  }

  lemma {:induction false} LostInMembers(m: Alloc, ms: seq<Member>, c: Client)
    requires Lost(m, c)
    ensures Lost(MarkMembers(m, ms), c)
  {
    if ms != [] {
      LostInMembers(m, ms[..|ms| - 1], c);
      LostInClients(MarkMembers(m, ms[..|ms| - 1]), ms[|ms| - 1].clients, c);
    }
  }

  // ---- reviving ----

  /** While clients of ms, all at a's addresses, are revived: the records still are at a's addresses,
      nobody's key is gained or lost, and the peers are active clients at a's addresses. */
  ghost predicate Reviving(env: Env, a: Alloc, ms: seq<Member>, b: Rebuild) {
    && MembersAgree(env.server6, a, b.members) && Pf.SamePeople(ms, b.members)
       && ClientKeys(b.members) == ClientKeys(ms)
    && b.alloc.net == a.net && b.alloc.server == a.server
    && PeersAmong(a, ms, b.peers)
  }

  ghost predicate PeersAmong(a: Alloc, ms: seq<Member>, ps: Peers) {
    forall k :: k in ps ==> k in ActiveKeys(ms) && k in a.bound && ps[k] == a.bound[k]
  }

  lemma {:induction false} ReviveOne(env: Env, a: Alloc, ms: seq<Member>, b: Rebuild, i: nat, j: nat, addOk: bool)
    requires Valid(a) && Canonical(a) && MembersAgree(env.server6, a, ms) && Reviving(env, a, ms, b)
    requires Pos(ms, i, j) && ms[i].IsActive()
    ensures var c := ms[i].clients[j];
            var r := ReviveClient(env, b, ms[i].id, c, addOk);
            && Reviving(env, a, ms, r) && r.alloc == b.alloc && b.peers.Keys <= r.peers.Keys
            && (addOk && c.key != "" ==> c.key in r.peers)
  {
    var c := ms[i].clients[j];
    assert AllAgree(env.server6, a, ms[i].clients);
    assert Agrees(env.server6, a, c);
    if c.key != "" {
      KeepsItsAddress(env, a, b.alloc, c);
      if addOk {
        Pf.StillListed(ms, b.members, i);
        RecordedAgain(env, a, ms, b.members, i, j, RevivedRecord(env, c, c.ip4));
        OneMorePeer(a, ms, b.peers, i, j);
      }
    }
  }

  lemma {:induction false} KeepsItsAddress(env: Env, a: Alloc, m: Alloc, c: Client)
    requires Valid(a) && Canonical(a) && m.net == a.net && m.server == a.server && c.key != ""
             && Agrees(env.server6, a, c)
    ensures PickAddress(m, c) == (m, Some(c.ip4)) && Agrees(env.server6, a, RevivedRecord(env, c, c.ip4))
  {
  }

  lemma {:induction false} OneMorePeer(a: Alloc, ms: seq<Member>, ps: Peers, i: nat, j: nat)
    requires PeersAmong(a, ms, ps) && Pos(ms, i, j) && ms[i].IsActive()
    requires var c := ms[i].clients[j]; c.key != "" && c.key in a.bound && c.ip4 == a.bound[c.key]
    ensures PeersAmong(a, ms, ps[ms[i].clients[j].key := ms[i].clients[j].ip4])
  {
  }

  lemma {:induction false} RecordedAgain(env: Env, a: Alloc, ms: seq<Member>, ns: seq<Member>, i: nat, j: nat,
                                         rec: Client)
    requires Valid(a) && MembersAgree(env.server6, a, ns) && Pf.SamePeople(ms, ns) && ClientKeys(ns) == ClientKeys(ms)
    requires Pos(ms, i, j) && FirstMember(ns, ms[i].id) < |ns|
    requires rec.key == ms[i].clients[j].key && rec.key != "" && Agrees(env.server6, a, rec)
    ensures var rs := AddClient(ns, ms[i].id, rec).1;
            MembersAgree(env.server6, a, rs) && Pf.SamePeople(ms, rs) && ClientKeys(rs) == ClientKeys(ms)
  {
    Pf.AddClientAgrees(env.server6, a, ns, ms[i].id, rec);
    Pf.AddClientKeys(env.server6, a, ns, ms[i].id, rec);
    Pf.AddRemoveSamePeople(ns, ms[i].id, rec);
    InClientKeys(ms, rec.key);
    assert HasKey(ms[i], rec.key);
    assert ClientKeys(ms) + {rec.key} == ClientKeys(ms);
  }

  lemma {:induction false} ReviveClientsKeep(env: Env, a: Alloc, ms: seq<Member>, b: Rebuild, i: nat, n: nat,
                                             addOk: AddOk)
    requires Valid(a) && Canonical(a) && MembersAgree(env.server6, a, ms) && Reviving(env, a, ms, b)
    requires i < |ms| && ms[i].IsActive() && n <= |ms[i].clients|
    ensures var r := ReviveClients(env, b, ms[i].id, ms[i].clients[..n], i, addOk);
            && Reviving(env, a, ms, r) && r.alloc == b.alloc && b.peers.Keys <= r.peers.Keys
            && (AllAdded(addOk) ==> KeysOf(ms[i].clients[..n]) <= r.peers.Keys)
  {
    var cs := ms[i].clients;
    if n > 0 {
      assert cs[..n][..n - 1] == cs[..n - 1];
      ReviveClientsKeep(env, a, ms, b, i, n - 1, addOk);
      ReviveOne(env, a, ms, ReviveClients(env, b, ms[i].id, cs[..n - 1], i, addOk), i, n - 1, addOk(i, n - 1));
      KeysOfSnoc(cs, n - 1);
    }
  }

  lemma {:induction false} ReviveMembersKeep(env: Env, a: Alloc, ms: seq<Member>, b: Rebuild, n: nat, addOk: AddOk)
    requires Valid(a) && Canonical(a) && MembersAgree(env.server6, a, ms) && Reviving(env, a, ms, b) && n <= |ms|
    ensures var r := ReviveMembers(env, b, ms[..n], addOk);
            && Reviving(env, a, ms, r) && r.alloc == b.alloc && b.peers.Keys <= r.peers.Keys
            && (AllAdded(addOk) ==> forall i :: 0 <= i < n && ms[i].IsActive() ==>
                KeysOf(ms[i].clients) <= r.peers.Keys)
  {
    if n > 0 {
      assert ms[..n][..n - 1] == ms[..n - 1];
      ReviveMembersKeep(env, a, ms, b, n - 1, addOk);
      if ms[n - 1].IsActive() {
        ReviveClientsKeep(env, a, ms, ReviveMembers(env, b, ms[..n - 1], addOk), n - 1, |ms[n - 1].clients|, addOk);
        assert ms[n - 1].clients[..|ms[n - 1].clients|] == ms[n - 1].clients;
      }
    }
  }

  /** reconcilePeers over an ACL that agreed with allocator a: the records keep a's addresses, the
      peers are active clients at them, and the allocator is the loaded one after marking. */
  lemma {:induction false} ReconcileKeeps(env: Env, a: Alloc, b: Alloc, ms: seq<Member>, addOk: AddOk)
    requires Valid(a) && Canonical(a) && MembersAgree(env.server6, a, ms) && LoadedOn(a, b)
    ensures var r := ReconcilePeers(env, b, ms, map[], addOk);
            && Reviving(env, a, ms, r) && r.alloc == MarkMembers(b, ms)
            && (AllAdded(addOk) ==> r.peers.Keys == ActiveKeys(ms))
  {
    var b0 := Rebuild(MarkMembers(b, ms), ms, map[], false);
    MarkKeepsSubnet(b, ms);
    assert ms[..|ms|] == ms;
    ReviveMembersKeep(env, a, ms, b0, |ms|, addOk);
    var r := ReviveMembers(env, b0, ms, addOk);
    assert r.peers.Keys - ActiveKeys(ms) == {};
    ReleaseNone(r.alloc);
    assert r.peers - {} == r.peers;
    if AllAdded(addOk) {
      EveryActiveKey(ms, r.peers.Keys);
    }
  }

  lemma {:induction false} EveryActiveKey(ms: seq<Member>, ks: set<Key>)
    requires forall i :: 0 <= i < |ms| && ms[i].IsActive() ==> KeysOf(ms[i].clients) <= ks
    ensures ActiveKeys(ms) <= ks
  {
  }

  lemma {:induction false} MarkClientsKeepsSubnet(a: Alloc, cs: seq<Client>)
    ensures MarkClients(a, cs).net == a.net && MarkClients(a, cs).server == a.server
  {
    if cs != [] {
      MarkClientsKeepsSubnet(a, cs[..|cs| - 1]);
    }
  }

  lemma {:induction false} MarkKeepsSubnet(a: Alloc, ms: seq<Member>)
    ensures MarkMembers(a, ms).net == a.net && MarkMembers(a, ms).server == a.server
  {
    if ms != [] {
      MarkKeepsSubnet(a, ms[..|ms| - 1]);
      MarkClientsKeepsSubnet(MarkMembers(a, ms[..|ms| - 1]), ms[|ms| - 1].clients);
    }
  }

  // ---- the theorems ----

  /** Restarting over an ACL that agreed with the allocator, from any allocation file however old, and
      whichever peers fail to install: every client again holds exactly the address bound to its key
      if and only if the file gives no client's address to another key. */
  lemma {:induction false} ReconcileAgreementIff(env: Env, a: Alloc, b: Alloc, ms: seq<Member>, addOk: AddOk)
    requires Valid(a) && Canonical(a) && MembersAgree(env.server6, a, ms) && LoadedOn(a, b)
    ensures AgreesAfter(env, b, ms, addOk) <==> NobodyStolen(b, ms)
  {
    ReconcileKeeps(env, a, b, ms, addOk);
    if NobodyStolen(b, ms) {
      OverlayMembers(env.server6, a, b, ms);
      CarriedOver(env, a, MarkMembers(b, ms), ReconcilePeers(env, b, ms, map[], addOk).members);
    } else {
      var i: nat, j: nat :| Pos(ms, i, j) && !NotStolen(b, ms[i].clients[j]);
      StolenShows(env, a, b, ms, i, j, addOk);
    }
  }

  /** Records at a's addresses agree with any allocator that binds their keys as a does. */
  lemma {:induction false} CarriedOver(env: Env, a: Alloc, m: Alloc, ms: seq<Member>)
    requires MembersAgree(env.server6, a, ms)
    requires forall k :: k in ClientKeys(ms) ==> k in m.bound && k in a.bound && m.bound[k] == a.bound[k]
    ensures MembersAgree(env.server6, m, ms)
  {
  }

  lemma {:induction false} StolenShows(env: Env, a: Alloc, b: Alloc, ms: seq<Member>, i: nat, j: nat, addOk: AddOk)
    requires Valid(a) && Canonical(a) && MembersAgree(env.server6, a, ms) && LoadedOn(a, b)
    requires Pos(ms, i, j) && !NotStolen(b, ms[i].clients[j])
    ensures !AgreesAfter(env, b, ms, addOk)
  {
    var c, r := ms[i].clients[j], ReconcilePeers(env, b, ms, map[], addOk);
    assert AllAgree(env.server6, a, ms[i].clients);
    assert Agrees(env.server6, a, c);
    var l :| l in b.bound && b.bound[l] == c.ip4 && l != c.key;
    assert Holdable(b, b.bound[l]);
    LostInMembers(b, ms, c);
    ReconcileKeeps(env, a, b, ms, addOk);
    InClientKeys(ms, c.key);
    assert HasKey(ms[i], c.key);
    InClientKeys(r.members, c.key);
    var i' :| 0 <= i' < |r.members| && HasKey(r.members[i'], c.key);
    var j' :| 0 <= j' < |r.members[i'].clients| && r.members[i'].clients[j'].key == c.key;
    assert AllAgree(env.server6, a, r.members[i'].clients);
    assert Agrees(env.server6, a, r.members[i'].clients[j']);
    assert !Agrees(env.server6, r.alloc, r.members[i'].clients[j']);
    assert !AllAgree(env.server6, r.alloc, r.members[i'].clients);
  }

  ghost predicate AgreesAfter(env: Env, b: Alloc, ms: seq<Member>, addOk: AddOk) {
    var r := ReconcilePeers(env, b, ms, map[], addOk);
    MembersAgree(env.server6, r.alloc, r.members)
  }

  /** A file saved by the clean shutdown of this very state steals nothing. */
  lemma {:induction false} CleanFile(env: Env, a: Alloc, b: Alloc, ms: seq<Member>)
    requires Valid(a) && Canonical(a) && MembersAgree(env.server6, a, ms) && Loaded(a.net, a.server, a.bound, b)
    ensures LoadedOn(a, b) && b.bound == a.bound && NobodyStolen(b, ms)
  {
  }

  // ---- the restart of the whole state ----

  lemma {:induction false} ReviveClientsSamePeople(env: Env, b: Rebuild, id: string, cs: seq<Client>, i: nat,
                                                   addOk: AddOk)
    ensures Pf.SamePeople(b.members, ReviveClients(env, b, id, cs, i, addOk).members)
  {
    if cs != [] {
      var n := |cs| - 1;
      ReviveClientsSamePeople(env, b, id, cs[..n], i, addOk);
      var r := ReviveClients(env, b, id, cs[..n], i, addOk);
      var ip := PickAddress(r.alloc, cs[n]).1;
      if ip.Some? {
        Pf.AddRemoveSamePeople(r.members, id, RevivedRecord(env, cs[n], ip.value));
      }
    }
  }

  lemma {:induction false} ReviveMembersSamePeople(env: Env, b: Rebuild, ms: seq<Member>, addOk: AddOk)
    ensures Pf.SamePeople(b.members, ReviveMembers(env, b, ms, addOk).members)
  {
    if ms != [] {
      var n := |ms| - 1;
      ReviveMembersSamePeople(env, b, ms[..n], addOk);
      if ms[n].IsActive() {
        ReviveClientsSamePeople(env, ReviveMembers(env, b, ms[..n], addOk), ms[n].id, ms[n].clients, n, addOk);
      }
    }
  }

  /** Whatever the allocation file holds and whatever fails, a restart keeps membership and an injective
      allocator. */
  lemma {:induction false} RestartTrusted(env: Env, owner: string, s: State, b: Alloc, boot: Time, addOk: AddOk)
    requires Trusted(env, owner, s) && Valid(b) && Canonical(b)
    ensures var t := Restart(env, s, b, boot, addOk); Trusted(env, owner, t) && Valid(t.alloc) && Canonical(t.alloc)
  {
    var ms := s.saved;
    CertifiedSurvive(env, s.log, ms);
    ReviveMembersSamePeople(env, Rebuild(MarkMembers(b, ms), ms, map[], false), ms, addOk);
    ReconcileSound(env, b, ms, map[], addOk);
    Pf.TrustCarries(env, owner, s.(members := ms), Restart(env, s, b, boot, addOk));
  }

  /** What a restart takes over from the files: pin, catalogue, generation, and the time of the last applied
      push to the second. Pending challenges are gone and the liveness timer starts anew. */
  lemma {:induction false} RestartKeepsRest(env: Env, s: State, b: Alloc, boot: Time, addOk: AddOk)
    ensures var t := Restart(env, s, b, boot, addOk);
            && t.pin == s.pin && t.apps == s.apps && t.generation == s.generation && t.log == s.log
            && t.appliedAt <= s.appliedAt < t.appliedAt + 1_000_000_000
            && t.nonces == map[] && t.live == L.Live(boot, false, 0, false)
            && t.saved == t.members && t.grants == Grants(t.members)
  {
  }

  /** A restart puts every client at the address bound to its key if and only if the allocation file gives
      no address in the ACL file to another key. */
  lemma {:induction false} RestartAgreementIff(env: Env, owner: string, s: State, b: Alloc, boot: Time, addOk: AddOk)
    requires Trusted(env, owner, s) && Backed(env, s) && LoadedOn(s.alloc, b)
    ensures Agreement(env, Restart(env, s, b, boot, addOk)) <==> NobodyStolen(b, s.saved)
  {
    var a :| BackedBy(env, s, a);
    CertifiedSurvive(env, s.log, s.saved);
    ReconcileAgreementIff(env, a, b, s.saved, addOk);
    ReconcileSound(env, b, s.saved, map[], addOk);
  }

  /** A restart from a file that steals nothing, whichever peers fail to install, keeps apps, pin,
      generation and signatures. It loses no client, brings back exactly those the ACL file still lists,
      saves the result, and mends the peer table: every peer is an active client at its address. */
  lemma {:induction false} RestartMends(env: Env, owner: string, s: State, b: Alloc, boot: Time, addOk: AddOk)
    requires Trusted(env, owner, s) && Backed(env, s) && LoadedOn(s.alloc, b) && NobodyStolen(b, s.saved)
    ensures var t := Restart(env, s, b, boot, addOk);
            && PeersAgree(t) && t.grants == Grants(t.members) && t.saved == t.members
            && t == s.(members := t.members, saved := t.saved, alloc := t.alloc, peers := t.peers, grants := t.grants,
                       appliedAt := WholeSeconds(s.appliedAt), live := L.Boot(boot), nonces := map[])
            && Pf.SamePeople(s.saved, t.members)
            && ClientKeys(s.members) <= ClientKeys(t.members) == ClientKeys(s.saved)
  {
    var a :| BackedBy(env, s, a);
    CertifiedSurvive(env, s.log, s.saved);
    ReconcileKeeps(env, a, b, s.saved, addOk);
    OverlayMembers(env.server6, a, b, s.saved);
    ActiveAreClients(s.saved);
  }

  /** The peers after a restart are clients of active members of the ACL file: all of them, when no AddPeer
      fails. */
  lemma {:induction false} RestartedPeers(env: Env, owner: string, s: State, b: Alloc, boot: Time, addOk: AddOk)
    requires Trusted(env, owner, s) && Backed(env, s) && LoadedOn(s.alloc, b)
    ensures var ps := Restart(env, s, b, boot, addOk).peers;
            ps.Keys <= ActiveKeys(s.saved) && (AllAdded(addOk) ==> ps.Keys == ActiveKeys(s.saved))
  {
    var a :| BackedBy(env, s, a);
    CertifiedSurvive(env, s.log, s.saved);
    ReconcileKeeps(env, a, b, s.saved, addOk);
  }

  /** The allocator afterwards: every key of the ACL file at its address there, the rest as the allocation
      file had it. From the file of a clean shutdown that the ACL file agrees with, exactly as it was. */
  lemma {:induction false} RestartedAlloc(env: Env, owner: string, s: State, a: Alloc, b: Alloc, boot: Time,
                                          addOk: AddOk)
    requires Trusted(env, owner, s) && BackedBy(env, s, a) && LoadedOn(s.alloc, b) && NobodyStolen(b, s.saved)
    ensures Overlaid(a, b, ClientKeys(s.saved), Restart(env, s, b, boot, addOk).alloc)
    ensures b == s.alloc == a ==> Restart(env, s, b, boot, addOk).alloc == s.alloc
  {
    CertifiedSurvive(env, s.log, s.saved);
    ReconcileKeeps(env, a, b, s.saved, addOk);
    OverlayMembers(env.server6, a, b, s.saved);
    if b == a {
      MarkSame(env.server6, b, s.saved);
    }
  }

  lemma {:induction false} MarkSame(server6: Address, a: Alloc, ms: seq<Member>)
    requires Valid(a) && MembersAgree(server6, a, ms)
    ensures MarkMembers(a, ms) == a
  {
    if ms != [] {
      var n := |ms| - 1;
      MarkSame(server6, a, ms[..n]);
      assert AllAgree(server6, a, ms[n].clients);
      MarkClientsSame(server6, a, ms[n].clients);
    }
  }

  lemma {:induction false} MarkClientsSame(server6: Address, a: Alloc, cs: seq<Client>)
    requires Valid(a) && AllAgree(server6, a, cs)
    ensures MarkClients(a, cs) == a
  {
    if cs != [] {
      var n := |cs| - 1;
      MarkClientsSame(server6, a, cs[..n]);
      assert Agrees(server6, a, cs[n]);
      if cs[n].key != "" {
        assert Holdable(a, a.bound[cs[n].key]);
      }
    }
  }

  lemma {:induction false} RevivedPeers(env: Env, b: Rebuild, id: string, cs: seq<Client>, i: nat, addOk: AddOk)
    ensures ReviveClients(env, b, id, cs, i, addOk).peers.Keys <= b.peers.Keys + KeysOf(cs)
  {
    if cs != [] {
      var n := |cs| - 1;
      RevivedPeers(env, b, id, cs[..n], i, addOk);
      KeysOfSnoc(cs, n);
      assert cs[..n + 1] == cs;
    }
  }

  lemma {:induction false} RevivedPeersActive(env: Env, b: Rebuild, ms: seq<Member>, n: nat, addOk: AddOk)
    requires n <= |ms| && b.peers == map[]
    ensures ReviveMembers(env, b, ms[..n], addOk).peers.Keys <= ActiveKeys(ms)
  {
    if n > 0 {
      assert ms[..n][..n - 1] == ms[..n - 1];
      RevivedPeersActive(env, b, ms, n - 1, addOk);
      if ms[n - 1].IsActive() {
        RevivedPeers(env, ReviveMembers(env, b, ms[..n - 1], addOk), ms[n - 1].id, ms[n - 1].clients, n - 1, addOk);
        assert KeysOf(ms[n - 1].clients) <= ActiveKeys(ms);
      }
    }
  }

  /** Whatever the files hold, every peer after a restart is a client of an active member of the ACL file. */
  lemma {:induction false} RestartedPeersActive(env: Env, s: State, b: Alloc, boot: Time, addOk: AddOk)
    ensures Restart(env, s, b, boot, addOk).peers.Keys <= ActiveKeys(s.saved)
  {
    var ms := if s.pin.Some? then KeepCertified(env, s.log, s.saved) else s.saved;
    var r := Rebuild(MarkMembers(b, ms), ms, map[], false);
    assert ms[..|ms|] == ms;
    RevivedPeersActive(env, r, ms, |ms|, addOk);
    KeepCertifiedExact(env, s.log, s.saved);
    FewerKeys(ms, s.saved);
  }

  lemma {:induction false} FewerKeys(ms: seq<Member>, ns: seq<Member>)
    requires forall m :: m in ms ==> m in ns
    ensures ActiveKeys(ms) <= ActiveKeys(ns)
  {
    forall k | k in ActiveKeys(ms)
      ensures k in ActiveKeys(ns)
    {
      var i, j :| 0 <= i < |ms| && ms[i].IsActive() && 0 <= j < |ms[i].clients| && ms[i].clients[j].key == k && k != "";
      assert ms[i] in ns;
    }
  }

  lemma {:induction false} ActiveAreClients(ms: seq<Member>)
    ensures ActiveKeys(ms) <= ClientKeys(ms)
  {
  }
}
