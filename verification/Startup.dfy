/** Startup: re-verify the loaded ACL, then bring allocator, peers and ACL addresses back in line. */
module Startup {
  import opened Base
  import opened Addresses
  import opened Allocator
  import opened Wire
  import opened Acl
  import opened Signing
  import opened Admission
  import opened DeviceState
  import opened Membership

  // ---- re-verification of the file ----

  function Certifier(env: Env, log: Log): Member -> bool {
    (m: Member) => Certified(env, log, m)
  }

  /** DropMembersFailing with the startup check. */
  function KeepCertified(env: Env, log: Log, ms: seq<Member>): seq<Member> {
    Keep(ms, Certifier(env, log))
  }

  /** Whatever the file held, every member kept was certified by this agent or claims to be an admin,
      and nobody certified is lost. */
  lemma {:induction false} KeepCertifiedExact(env: Env, log: Log, ms: seq<Member>)
    ensures AllCertified(env, log, KeepCertified(env, log, ms))
    ensures forall m :: m in KeepCertified(env, log, ms) <==> m in ms && Certified(env, log, m)
  {
    KeepExact(ms, Certifier(env, log));
    var ks := KeepCertified(env, log, ms);
    forall i | 0 <= i < |ks|
      ensures Certified(env, log, ks[i])
    {
      assert ks[i] in ks;
    }
  }

  /** An ACL the agent wrote itself loses nobody. */
  lemma {:induction false} CertifiedSurvive(env: Env, log: Log, ms: seq<Member>)
    requires AllCertified(env, log, ms)
    ensures KeepCertified(env, log, ms) == ms
  {
    KeepAll(ms, Certifier(env, log));
  }

  /** So a tampered file cannot bring in a non-admin this agent did not vet. */
  lemma {:induction false} LoadedMembersWereVetted(env: Env, owner: string, log: Log, ms: seq<Member>, m: Member)
    requires LogJustified(env, owner, log) && m in KeepCertified(env, log, ms) && !m.IsAdmin()
    ensures m.admittance.Some? && m.admittance.value.memberId == m.id && m.admittance.value.identityKey == m.identityKey
    ensures Admitted(env, owner, m.admittance.value)
  {
    KeepCertifiedExact(env, log, ms);
    CertMeansAdmitted(env, owner, log, m.admittance.value, m.id, m.identityKey);
  }

  // ---- reconcilePeers ----

  function MarkClients(a: Alloc, cs: seq<Client>): Alloc {
    if cs == [] then a
    else MarkUsed(MarkClients(a, cs[..|cs| - 1]), cs[|cs| - 1].key, cs[|cs| - 1].ip4)
  }

  function MarkMembers(a: Alloc, ms: seq<Member>): Alloc {
    if ms == [] then a else MarkClients(MarkMembers(a, ms[..|ms| - 1]), ms[|ms| - 1].clients)
  }

  /** Allocator, ACL and peers while they are being rebuilt, and whether some step has failed. */
  datatype Rebuild = Rebuild(alloc: Alloc, members: seq<Member>, peers: Peers, failed: bool)

  predicate Renumbered(a: Alloc, c: Client) {
    c.ip4 == NoAddress || !InSubnet(a, c.ip4)
  }

  function PickAddress(a: Alloc, c: Client): (Alloc, Option<Address>) {
    if Renumbered(a, c) then Allocate(a, c.key) else (a, Some(c.ip4))
  }

  function RevivedRecord(env: Env, c: Client, ip: Address): Client {
    Client(c.key, ip, TunnelIPv6(env.server6, ip), c.title, c.platform, "")
  }

  /** One client of an active member: keep its address if it is in the subnet, else take one from the
      allocator; install the peer; write the result back to the ACL. */
  function ReviveClient(env: Env, b: Rebuild, id: string, c: Client, addOk: bool): Rebuild {
    if c.key == "" then b
    else
      var (a, ip) := PickAddress(b.alloc, c);
      if ip.None? then b.(failed := true)
      else if !addOk then b.(alloc := a, failed := true)
      else
        b.(alloc := a, members := AddClient(b.members, id, RevivedRecord(env, c, ip.value)).1,
           peers := b.peers[c.key := ip.value])
  }

  function ReviveClients(env: Env, b: Rebuild, id: string, cs: seq<Client>, i: nat, addOk: AddOk): Rebuild {
    if cs == [] then b
    else ReviveClient(env, ReviveClients(env, b, id, cs[..|cs| - 1], i, addOk), id, cs[|cs| - 1], addOk(i, |cs| - 1))
  }

  /** The pass over a snapshot of the members; suspended ones are skipped. */
  function ReviveMembers(env: Env, b: Rebuild, ms: seq<Member>, addOk: AddOk): Rebuild {
    if ms == [] then b
    else
      var r, m := ReviveMembers(env, b, ms[..|ms| - 1], addOk), ms[|ms| - 1];
      if m.IsActive() then ReviveClients(env, r, m.id, m.clients, |ms| - 1, addOk) else r
  }

  function ActiveKeys(ms: seq<Member>): set<Key> {
    set i, j | 0 <= i < |ms| && ms[i].IsActive() && 0 <= j < |ms[i].clients|
      && ms[i].clients[j].key != "" :: ms[i].clients[j].key
  }

  function ReconcilePeers(env: Env, a: Alloc, ms: seq<Member>, peers: Peers, addOk: AddOk): Rebuild {
    var r := ReviveMembers(env, Rebuild(MarkMembers(a, ms), ms, peers, false), ms, addOk);
    var stale := r.peers.Keys - ActiveKeys(ms);
    r.(peers := r.peers - stale, alloc := ReleaseAll(r.alloc, stale))
  }

  // ---- what the loaded state must satisfy ----

  /** All clients, in the order the passes visit them. */
  function Flat(ms: seq<Member>): seq<Client> {
    if ms == [] then [] else Flat(ms[..|ms| - 1]) + ms[|ms| - 1].clients
  }

  /** Keys are listed once; in-subnet ACL addresses are distinct; and the allocation file gives no ACL
      address to another key. */
  ghost predicate Compatible(a: Alloc, ms: seq<Member>) {
    && Valid(a) && Canonical(a)
    && a.used == Reserved(a.net, a.server) + a.bound.Values
    && Once(a, Flat(ms)) && NoneStolen(a, Flat(ms))
  }

  ghost predicate Once(a: Alloc, cs: seq<Client>) {
    forall x, y :: 0 <= x < y < |cs| ==> Apart(a, cs[x], cs[y])
  }

  /** Different clients: different keys, if any, and different in-subnet addresses. */
  predicate Apart(a: Alloc, c: Client, d: Client) {
    (c.key != "" ==> c.key != d.key) && (InSubnet(a, c.ip4) ==> c.ip4 != d.ip4)
  }

  /** No key other than the client's own is bound to its address. */
  predicate NotStolen(a: Alloc, c: Client) {
    forall k :: k in a.bound && a.bound[k] == c.ip4 ==> k == c.key
  }

  ghost predicate NoneStolen(a: Alloc, cs: seq<Client>) {
    forall x :: 0 <= x < |cs| ==> NotStolen(a, cs[x])
  }

  // ---- marking ----

  lemma {:induction false} MarkConcat(a: Alloc, cs: seq<Client>, ds: seq<Client>)
    ensures MarkClients(a, cs + ds) == MarkClients(MarkClients(a, cs), ds)
  {
    if ds == [] {
      assert cs + ds == cs;
    } else {
      var n := |ds| - 1;
      MarkConcat(a, cs, ds[..n]);
      assert (cs + ds)[..|cs + ds| - 1] == cs + ds[..n];
    }
  }

  lemma {:induction false} MarkFlat(a: Alloc, ms: seq<Member>)
    ensures MarkMembers(a, ms) == MarkClients(a, Flat(ms))
  {
    if ms != [] {
      MarkFlat(a, ms[..|ms| - 1]);
      MarkConcat(a, Flat(ms[..|ms| - 1]), ms[|ms| - 1].clients);
    }
  }

  /** The client's in-subnet address is its own: bound to its key, or for a keyless record taken. */
  predicate Reserves(a: Alloc, c: Client) {
    InSubnet(a, c.ip4) ==>
      c.ip4 in a.used && (c.key != "" ==> c.key in a.bound && a.bound[c.key] == c.ip4)
  }

  ghost predicate AllReserve(a: Alloc, cs: seq<Client>) {
    forall x :: 0 <= x < |cs| ==> Reserves(a, cs[x])
  }

  /** A binding is the file's or that of a client already marked. */
  predicate FromMarked(a0: Alloc, cs: seq<Client>, k: Key, ip: Address) {
    (k in a0.bound && a0.bound[k] == ip)
    || exists x :: 0 <= x < |cs| && InSubnet(a0, cs[x].ip4) && cs[x].key == k && cs[x].ip4 == ip
  }

  /** The file's binding of k still stands, or k has been moved to its address in the ACL. */
  predicate Stands(a0: Alloc, a: Alloc, cs: seq<Client>, k: Key) {
    k in a.bound
    && ((k in a0.bound && a.bound[k] == a0.bound[k]) || exists x :: 0 <= x < |cs| && k != "" && cs[x].key == k)
  }

  predicate InUse(a0: Alloc, cs: seq<Client>, ip: Address) {
    ip in a0.used || exists x :: 0 <= x < |cs| && InSubnet(a0, cs[x].ip4) && cs[x].ip4 == ip
  }

  /** What marking cs has made of the loaded allocator a0. */
  ghost predicate Marked(a0: Alloc, cs: seq<Client>, a: Alloc) {
    && Valid(a) && Canonical(a) && a.net == a0.net && a.server == a0.server
    && AllReserve(a, cs)
    && (forall k :: k in a.bound ==> FromMarked(a0, cs, k, a.bound[k]))
    && (forall k {:trigger Stands(a0, a, cs, k)} :: k in a0.bound ==> Stands(a0, a, cs, k))
    && (forall ip :: ip in a.used ==> InUse(a0, cs, ip))
  }

  lemma {:induction false} FromMarkedGrows(a0: Alloc, cs: seq<Client>, c: Client, k: Key, ip: Address)
    requires FromMarked(a0, cs, k, ip)
    ensures FromMarked(a0, cs + [c], k, ip)
  {
    if !(k in a0.bound && a0.bound[k] == ip) {
      var x :| 0 <= x < |cs| && InSubnet(a0, cs[x].ip4) && cs[x].key == k && cs[x].ip4 == ip;
      assert (cs + [c])[x] == cs[x];
    }
  }

  lemma {:induction false} InUseGrows(a0: Alloc, cs: seq<Client>, c: Client, ip: Address)
    requires InUse(a0, cs, ip)
    ensures InUse(a0, cs + [c], ip)
  {
    if ip !in a0.used {
      var x :| 0 <= x < |cs| && InSubnet(a0, cs[x].ip4) && cs[x].ip4 == ip;
      assert (cs + [c])[x] == cs[x];
    }
  }

  /** c comes after cs in a list without repetitions, and its file binding is its own. */
  ghost predicate Next(a0: Alloc, cs: seq<Client>, c: Client) {
    && a0.used == Reserved(a0.net, a0.server) + a0.bound.Values && NotStolen(a0, c)
    && forall x :: 0 <= x < |cs| ==> Apart(a0, cs[x], c)
  }

  /** If c's address is in use already, it is because the file bound it to c's key, and it still is. */
  lemma {:induction false} InUseMeansBound(a0: Alloc, cs: seq<Client>, a: Alloc, c: Client)
    requires Marked(a0, cs, a) && Next(a0, cs, c) && InSubnet(a, c.ip4) && c.ip4 in a.used
    ensures c.key in a.bound && a.bound[c.key] == c.ip4
  {
    assert InUse(a0, cs, c.ip4);
    assert forall x :: 0 <= x < |cs| ==> Apart(a0, cs[x], c);
    assert c.ip4 in a0.used;
    assert c.ip4 in a0.bound.Values;
    var k :| k in a0.bound && a0.bound[k] == c.ip4;
    assert k == c.key;
    assert Stands(a0, a, cs, k);
  }

  lemma {:induction false} MarkOne(a0: Alloc, cs: seq<Client>, a: Alloc, c: Client)
    requires Marked(a0, cs, a) && Next(a0, cs, c)
    ensures Marked(a0, cs + [c], MarkUsed(a, c.key, c.ip4))
  {
    var b, ds := MarkUsed(a, c.key, c.ip4), cs + [c];
    StepKeeps(a, DoMarkUsed(c.key, c.ip4));
    if InSubnet(a, c.ip4) && c.ip4 in a.used {
      InUseMeansBound(a0, cs, a, c);
    }
    assert ds[|cs|] == c;
    MarkOneReserves(a0, cs, a, c);
    forall k | k in b.bound
      ensures FromMarked(a0, ds, k, b.bound[k])
    {
      if k in a.bound && a.bound[k] == b.bound[k] {
        FromMarkedGrows(a0, cs, c, k, b.bound[k]);
      } else {
        assert ds[|cs|].key == k && ds[|cs|].ip4 == b.bound[k];
      }
    }
    forall k | k in a0.bound
      ensures Stands(a0, b, ds, k)
    {
      assert Stands(a0, a, cs, k);
      if k == c.key {
        assert ds[|cs|].key == k;
      } else if a.bound[k] != a0.bound[k] {
        var x :| 0 <= x < |cs| && cs[x].key == k;
        assert ds[x].key == k;
      }
    }
    forall ip | ip in b.used
      ensures InUse(a0, ds, ip)
    {
      if ip in a.used {
        InUseGrows(a0, cs, c, ip);
      } else {
        assert ds[|cs|].ip4 == ip;
      }
    }
  }

  lemma {:induction false} MarkOneReserves(a0: Alloc, cs: seq<Client>, a: Alloc, c: Client)
    requires Marked(a0, cs, a) && Next(a0, cs, c)
    ensures AllReserve(MarkUsed(a, c.key, c.ip4), cs + [c])
  {
    var b := MarkUsed(a, c.key, c.ip4);
    if InSubnet(a, c.ip4) && c.ip4 in a.used {
      InUseMeansBound(a0, cs, a, c);
    }
    forall x | 0 <= x < |cs|
      ensures Reserves(b, cs[x])
    {
      assert Reserves(a, cs[x]);
      assert Apart(a0, cs[x], c);
    }
  }

  lemma {:induction false} MarkAll(a0: Alloc, cs: seq<Client>)
    requires Valid(a0) && Canonical(a0) && a0.used == Reserved(a0.net, a0.server) + a0.bound.Values
    requires Once(a0, cs) && NoneStolen(a0, cs)
    ensures Marked(a0, cs, MarkClients(a0, cs))
  {
    if cs != [] {
      var n := |cs| - 1;
      MarkAll(a0, cs[..n]);
      assert forall x :: 0 <= x < n ==> Apart(a0, cs[..n][x], cs[n]);
      assert NotStolen(a0, cs[n]);
      MarkOne(a0, cs[..n], MarkClients(a0, cs[..n]), cs[n]);
      assert cs == cs[..n] + [cs[n]];
    } else {
      assert forall k :: k in a0.bound ==> Stands(a0, a0, cs, k);
    }
  }

  /** After marking, still no client's address is bound to another key. */
  lemma {:induction false} MarkedNoneStolen(a0: Alloc, cs: seq<Client>, a: Alloc)
    requires Marked(a0, cs, a) && Once(a0, cs) && NoneStolen(a0, cs)
    ensures NoneStolen(a, cs)
  {
  }

  // ---- soundness of the allocator throughout, on any state ----

  lemma {:induction false} MarkClientsSound(a: Alloc, cs: seq<Client>)
    requires Valid(a) && Canonical(a)
    ensures Valid(MarkClients(a, cs)) && Canonical(MarkClients(a, cs))
  {
    if cs != [] {
      var n := |cs| - 1;
      MarkClientsSound(a, cs[..n]);
      StepKeeps(MarkClients(a, cs[..n]), DoMarkUsed(cs[n].key, cs[n].ip4));
    }
  }

  lemma {:induction false} ReviveClientSound(env: Env, b: Rebuild, id: string, c: Client, addOk: bool)
    requires Valid(b.alloc) && Canonical(b.alloc)
    ensures var r := ReviveClient(env, b, id, c, addOk); Valid(r.alloc) && Canonical(r.alloc)
  {
    StepKeeps(b.alloc, DoAllocate(c.key));
  }

  lemma {:induction false} ReviveClientsSound(env: Env, b: Rebuild, id: string, cs: seq<Client>, i: nat, addOk: AddOk)
    requires Valid(b.alloc) && Canonical(b.alloc)
    ensures var r := ReviveClients(env, b, id, cs, i, addOk); Valid(r.alloc) && Canonical(r.alloc)
  {
    if cs != [] {
      var n := |cs| - 1;
      ReviveClientsSound(env, b, id, cs[..n], i, addOk);
      ReviveClientSound(env, ReviveClients(env, b, id, cs[..n], i, addOk), id, cs[n], addOk(i, n));
    }
  }

  lemma {:induction false} ReviveMembersSound(env: Env, b: Rebuild, ms: seq<Member>, addOk: AddOk)
    requires Valid(b.alloc) && Canonical(b.alloc)
    ensures var r := ReviveMembers(env, b, ms, addOk); Valid(r.alloc) && Canonical(r.alloc)
  {
    if ms != [] {
      var n := |ms| - 1;
      ReviveMembersSound(env, b, ms[..n], addOk);
      ReviveClientsSound(env, ReviveMembers(env, b, ms[..n], addOk), ms[n].id, ms[n].clients, n, addOk);
    }
  }

  /** Whatever the files held and whatever fails, startup leaves an injective allocator. */
  lemma {:induction false} ReconcileSound(env: Env, a: Alloc, ms: seq<Member>, peers: Peers, addOk: AddOk)
    requires Valid(a) && Canonical(a)
    ensures var m := ReviveMembers(env, Rebuild(MarkMembers(a, ms), ms, peers, false), ms, addOk);
            Valid(m.alloc) && Canonical(m.alloc)
    ensures var r := ReconcilePeers(env, a, ms, peers, addOk); Valid(r.alloc) && Canonical(r.alloc)
  {
    MarkFlat(a, ms);
    MarkClientsSound(a, Flat(ms));
    var b := Rebuild(MarkMembers(a, ms), ms, peers, false);
    ReviveMembersSound(env, b, ms, addOk);
    var m := ReviveMembers(env, b, ms, addOk);
    ReleaseAllValid(m.alloc, m.peers.Keys - ActiveKeys(ms));
  }
}
