/** The WireGuard peer table against the ACL. */
module Peering {
  import opened Base
  import opened Addresses
  import opened Allocator
  import opened Wire
  import opened Acl
  import opened Signing
  import opened DeviceState
  import opened Addressing

  /** Every peer is a client in the ACL, installed at the address the allocator binds to its key. */
  ghost predicate PeersAgree(s: State) {
    forall k :: k in s.peers ==> k in ClientKeys(s.members) && k in s.alloc.bound && s.peers[k] == s.alloc.bound[k]
  }

  ghost predicate PeersBound(a: Alloc, ps: Peers) {
    forall k :: k in ps ==> k in a.bound && ps[k] == a.bound[k]
  }

  ghost predicate AllAdded(addOk: AddOk) {
    forall i, j :: addOk(i, j)
  }

  /** Is k installed by a pass over the members? The last member that lists it decides. */
  predicate Wanted(ms: seq<Member>, k: Key) {
    var i := LastMatch(ms, HasKey, k);
    i.Some? && ms[i.value].status != "suspended"
  }

  predicate Listed(ms: seq<Member>, k: Key) {
    LastMatch(ms, HasKey, k).Some?
  }

  lemma {:induction false} InKeysOf(m: Member, k: Key)
    ensures k in KeysOf(m.clients) <==> HasKey(m, k)
  {
  }

  lemma {:induction false} ListedIsClient(ms: seq<Member>, k: Key)
    ensures Listed(ms, k) <==> k in ClientKeys(ms)
  {
  }

  lemma {:induction false} InstallClientsOk(a: Alloc, server6: Address, ps: Peers, cs: seq<Client>, i: nat,
                                            addOk: AddOk)
    requires Valid(a) && AllAgree(server6, a, cs) && PeersBound(a, ps)
    ensures var qs := InstallClients(ps, cs, i, addOk);
            && PeersBound(a, qs)
            && ps.Keys <= qs.Keys <= ps.Keys + KeysOf(cs)
            && (AllAdded(addOk) ==> qs.Keys == ps.Keys + KeysOf(cs))
  {
    if cs != [] {
      var n := |cs| - 1;
      assert AllAgree(server6, a, cs[..n]);
      InstallClientsOk(a, server6, ps, cs[..n], i, addOk);
      assert Agrees(server6, a, cs[n]);
      if cs[n].key != "" {
        assert Holdable(a, a.bound[cs[n].key]);
      }
      KeysOfSnoc(cs, n);
      assert cs[..n + 1] == cs;
    }
  }

  lemma {:induction false} InstallMembersOk(a: Alloc, server6: Address, ps: Peers, ms: seq<Member>, addOk: AddOk)
    requires Valid(a) && MembersAgree(server6, a, ms) && PeersBound(a, ps)
    ensures var qs := InstallMembers(ps, ms, addOk);
            && PeersBound(a, qs)
            && (forall k :: k in qs ==> if Listed(ms, k) then Wanted(ms, k) else k in ps)
            && (AllAdded(addOk) ==> forall k :: k in qs <==> if Listed(ms, k) then Wanted(ms, k) else k in ps)
  {
    if ms != [] {
      var n := |ms| - 1;
      assert MembersAgree(server6, a, ms[..n]);
      InstallMembersOk(a, server6, ps, ms[..n], addOk);
      var qs := InstallMembers(ps, ms[..n], addOk);
      assert AllAgree(server6, a, ms[n].clients);
      InstallClientsOk(a, server6, qs, ms[n].clients, n, addOk);
      forall k
        ensures k in KeysOf(ms[n].clients) <==> HasKey(ms[n], k)
      {
        InKeysOf(ms[n], k);
      }
    }
  }

  /** If every peer was an ACL client before an applied push, then afterwards every peer is a client,
      at its allocator address, of a last-listing member that is not suspended; and when no AddPeer
      fails, those clients are exactly the peers. */
  lemma {:induction false} AppliedPushPeers(env: Env, s: State, p: Push, now: Time, finished: Time, addOk: AddOk)
    requires Agreement(env, s) && PeersAgree(s) && HandlePush(env, s, p, now, finished, addOk).1 == Applied
    ensures var s' := HandlePush(env, s, p, now, finished, addOk).0;
            && PeersAgree(s')
            && (forall k :: k in s'.peers ==> Wanted(s'.members, k))
            && (AllAdded(addOk) ==> forall k :: k in s'.peers <==> Wanted(s'.members, k))
  {
    var owner, apps, v, a := AppliedMeans(env, s, p, now, finished, addOk);
    AcceptedAgree(env, s, p, now, owner, apps, v, a);
    CommitPeers(env, s.(log := v.log, alloc := a.alloc), s.alloc, DeriveV6(env.server6, a.done), apps, p.generation,
                now, finished, addOk);
  }

  lemma {:induction false} CommitPeers(env: Env, s: State, before: Alloc, ms: seq<Member>, apps: seq<App>, gen: int,
                                       now: Time, finished: Time, addOk: AddOk)
    requires Valid(s.alloc) && Extends(before, s.alloc) && MembersAgree(env.server6, s.alloc, ms)
    requires forall k :: k in s.peers ==>
             k in ClientKeys(s.members) && k in before.bound && s.peers[k] == before.bound[k]
    ensures var s' := Commit(s, ms, apps, gen, now, finished, addOk);
            && PeersAgree(s')
            && (forall k :: k in s'.peers ==> Wanted(ms, k))
            && (AllAdded(addOk) ==> forall k :: k in s'.peers <==> Wanted(ms, k))
  {
    var removed := ClientKeys(s.members) - ClientKeys(ms);
    var ps := s.peers - removed;
    assert PeersBound(s.alloc, ps);
    InstallMembersOk(s.alloc, env.server6, ps, ms, addOk);
    var s' := Commit(s, ms, apps, gen, now, finished, addOk);
    forall k
      ensures Listed(ms, k) <==> k in ClientKeys(ms)
    {
      ListedIsClient(ms, k);
    }
    forall k | k in s'.peers
      ensures k in ClientKeys(ms) && k in s'.alloc.bound && s'.peers[k] == s'.alloc.bound[k]
    {
      assert Listed(ms, k) <==> k in ClientKeys(ms);
    }
  }

  /** No key is listed both by a suspended member and by one that is not. */
  ghost predicate StatusConsistent(ms: seq<Member>) {
    forall i, j, k :: 0 <= i < |ms| && 0 <= j < |ms| && HasKey(ms[i], k) && HasKey(ms[j], k) ==>
                        (ms[i].status == "suspended" <==> ms[j].status == "suspended")
  }

  /** Then "wanted" is simply being a client of a member that is not suspended. */
  lemma {:induction false} WantedSimply(ms: seq<Member>, k: Key)
    requires StatusConsistent(ms)
    ensures Wanted(ms, k) <==> exists i :: 0 <= i < |ms| && HasKey(ms[i], k) && ms[i].status != "suspended"
  {
  }
}
