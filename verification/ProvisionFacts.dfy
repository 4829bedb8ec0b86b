/** What provisioning keeps, and exactly when its rollback does not. */
module ProvisionFacts {
  import opened Base
  import opened Addresses
  import opened Allocator
  import opened Wire
  import opened Acl
  import opened Signing
  import opened Admission
  import opened DeviceState
  import opened Addressing
  import opened Peering
  import opened Membership
  import opened Provisioning

  /** A second member with the same id also lists the key. Only the first one is cleaned up by a rollback. */
  predicate HeldByNamesake(ms: seq<Member>, id: string, k: Key) {
    exists i :: FirstMember(ms, id) < i < |ms| && ms[i].id == id && HasKey(ms[i], k)
  }

  /** Allocation, record and install all happened, and then the install failed. */
  predicate RolledBack(env: Env, s: State, id: string, k: Key, addOk: bool) {
    !addOk && k != "" && FirstMember(s.members, id) < |s.members| && Allocate(s.alloc, k).1.Some?
  }

  // ---- the member list under AddClient and RemoveClient ----

  lemma {:induction false} FirstMemberStripped(ms: seq<Member>, id: string, rec: Client)
    ensures FirstMember(StripOthers(ms, id, rec), id) == FirstMember(ms, id)
  {
  }

  /** After a successful AddClient: position by position, what became of each member. */
  lemma {:induction false} AddClientShape(ms: seq<Member>, id: string, rec: Client)
    requires rec.key != "" && FirstMember(ms, id) < |ms|
    ensures var f := FirstMember(ms, id);
            var (ok, ns) := AddClient(ms, id, rec);
            && ok && |ns| == |ms| && FirstMember(ns, id) == f
            && ns[f] == ms[f].(clients := PutClient(ms[f].clients, rec))
            && forall i :: 0 <= i < |ms| && i != f ==>
                             ns[i] == if ms[i].id == id then ms[i] else ms[i].(clients := Kept(ms[i].clients, rec))
  {
    FirstMemberStripped(ms, id, rec);
    var f := FirstMember(ms, id);
    var ns := AddClient(ms, id, rec).1;
    assert ns[f].id == id;
    assert forall i :: 0 <= i < f ==> ns[i].id != id;
  }

  lemma {:induction false} KeptAgree(server6: Address, a: Alloc, cs: seq<Client>, rec: Client)
    requires AllAgree(server6, a, cs)
    ensures AllAgree(server6, a, Kept(cs, rec))
  {
    forall j | 0 <= j < |Kept(cs, rec)|
      ensures Agrees(server6, a, Kept(cs, rec)[j])
    {
      InKept(cs, rec, Kept(cs, rec)[j]);
    }
  }

  lemma {:induction false} PutAgrees(server6: Address, a: Alloc, cs: seq<Client>, rec: Client)
    requires Valid(a) && AllAgree(server6, a, cs) && rec.key != "" && Agrees(server6, a, rec)
    ensures AllAgree(server6, a, PutClient(cs, rec))
  {
  }

  lemma {:induction false} AddClientAgrees(server6: Address, a: Alloc, ms: seq<Member>, id: string, rec: Client)
    requires Valid(a) && MembersAgree(server6, a, ms) && rec.key != "" && Agrees(server6, a, rec)
             && FirstMember(ms, id) < |ms|
    ensures MembersAgree(server6, a, AddClient(ms, id, rec).1)
  {
    AddClientShape(ms, id, rec);
    var ns := AddClient(ms, id, rec).1;
    forall i | 0 <= i < |ns|
      ensures AllAgree(server6, a, ns[i].clients)
    {
      assert AllAgree(server6, a, ms[i].clients);
      KeptAgree(server6, a, ms[i].clients, rec);
      if i == FirstMember(ms, id) {
        PutAgrees(server6, a, ms[i].clients, rec);
      }
    }
  }

  lemma {:induction false} AgreeExtends(server6: Address, a: Alloc, b: Alloc, ms: seq<Member>)
    requires Extends(a, b) && MembersAgree(server6, a, ms)
    ensures MembersAgree(server6, b, ms)
  {
  }

  /** Clients that agree with an allocator still do once k is released, exactly if none of them is k. */
  lemma {:induction false} ReleaseAgreeIff(server6: Address, a: Alloc, ms: seq<Member>, k: Key)
    requires Valid(a) && MembersAgree(server6, a, ms) && k != ""
    ensures MembersAgree(server6, Release(a, k), ms) <==> k !in ClientKeys(ms)
  {
  }

  lemma {:induction false} NoKeyKept(m: Member, rec: Client)
    ensures !HasKey(m.(clients := Kept(m.clients, rec)), rec.key)
  {
    var cs := Kept(m.clients, rec);
    forall j | 0 <= j < |cs|
      ensures cs[j].key != rec.key
    {
      InKept(m.clients, rec, cs[j]);
    }
  }

  lemma {:induction false} NoKeyWithout(m: Member, k: Key)
    ensures !HasKey(m.(clients := WithoutKey(m.clients, k)), k)
  {
    var cs := WithoutKey(m.clients, k);
    forall j | 0 <= j < |cs|
      ensures cs[j].key != k
    {
      InWithoutKey(m.clients, k, cs[j]);
    }
  }

  /** Undoing AddClient with RemoveClient clears the key everywhere but in namesakes of the member. */
  lemma {:induction false} RollbackClears(ms: seq<Member>, id: string, rec: Client)
    requires rec.key != "" && FirstMember(ms, id) < |ms|
    ensures var ns := RemoveClient(AddClient(ms, id, rec).1, id, rec.key).1;
            rec.key in ClientKeys(ns) <==> HeldByNamesake(ms, id, rec.key)
  {
    AddClientShape(ms, id, rec);
    var added := AddClient(ms, id, rec).1;
    var ns := RemoveClient(added, id, rec.key).1;
    var f := FirstMember(ms, id);
    NoKeyWithout(added[f], rec.key);
    forall i | 0 <= i < |ms|
      ensures HasKey(ns[i], rec.key) <==> i != f && ms[i].id == id && HasKey(ms[i], rec.key)
    {
      NoKeyKept(ms[i], rec);
    }
    InClientKeys(ns, rec.key);
    if HeldByNamesake(ms, id, rec.key) {
      var i :| f < i < |ms| && ms[i].id == id && HasKey(ms[i], rec.key);
      assert HasKey(ns[i], rec.key);
    }
  }

  lemma {:induction false} RemoveAgrees(server6: Address, a: Alloc, ms: seq<Member>, id: string, k: Key)
    requires MembersAgree(server6, a, ms)
    ensures MembersAgree(server6, a, RemoveClient(ms, id, k).1)
  {
    var f := FirstMember(ms, id);
    if f < |ms| {
      var cs := WithoutKey(ms[f].clients, k);
      assert AllAgree(server6, a, ms[f].clients);
      forall j | 0 <= j < |cs|
        ensures Agrees(server6, a, cs[j])
      {
        InWithoutKey(ms[f].clients, k, cs[j]);
      }
      var ns := RemoveClient(ms, id, k).1;
      forall i | 0 <= i < |ns|
        ensures AllAgree(server6, a, ns[i].clients)
      {
        assert i != f ==> AllAgree(server6, a, ms[i].clients);
      }
    }
  }

  // ---- agreement ----

  /** A provision keeps every client at its allocator address, except exactly when AddPeer failed and
      the rollback left the key behind in a second member with the same id. */
  lemma {:induction false} ProvisionAgreementIff(env: Env, s: State, id: string, k: Key, addOk: bool)
    requires Agreement(env, s) && FirstMember(s.members, id) < |s.members|
    ensures Agreement(env, Install(env, s, id, k, addOk).0) <==>
            !(RolledBack(env, s, id, k, addOk) && HeldByNamesake(s.members, id, k))
  {
    var (a, ip) := Allocate(s.alloc, k);
    AllocateLowestFree(s.alloc, k);
    StepKeeps(s.alloc, DoAllocate(k));
    StepKeeps(a, DoRelease(k));
    if ip.None? {
    } else if k == "" {
      BlankKeyAgreement(env, s);
    } else {
      var rec := Record(env, k, ip.value);
      AgreeExtends(env.server6, s.alloc, a, s.members);
      AddClientAgrees(env.server6, a, s.members, id, rec);
      AddClientShape(s.members, id, rec);
      if !addOk {
        var ms := AddClient(s.members, id, rec).1;
        RemoveAgrees(env.server6, a, ms, id, k);
        RollbackClears(s.members, id, rec);
        ReleaseAgreeIff(env.server6, a, RemoveClient(ms, id, k).1, k);
      }
    }
  }

  lemma {:induction false} BlankKeyAgreement(env: Env, s: State)
    requires Agreement(env, s) && Allocate(s.alloc, "").1.Some?
    ensures MembersAgree(env.server6, Release(Allocate(s.alloc, "").0, ""), s.members)
  {
  }

  /** With distinct member ids it never happens. */
  lemma {:induction false} NoNamesakes(ms: seq<Member>, id: string, k: Key)
    requires DistinctIds(ms)
    ensures !HeldByNamesake(ms, id, k)
  {
  }

  // ---- peers ----

  /** The keys listed after AddClient: the old ones and the new one. */
  lemma {:induction false} AddClientKeys(server6: Address, a: Alloc, ms: seq<Member>, id: string, rec: Client)
    requires Valid(a) && MembersAgree(server6, a, ms) && rec.key != "" && Agrees(server6, a, rec)
             && FirstMember(ms, id) < |ms|
    ensures ClientKeys(AddClient(ms, id, rec).1) == ClientKeys(ms) + {rec.key}
  {
    var k := rec.key;
    AddClientShape(ms, id, rec);
    var ns := AddClient(ms, id, rec).1;
    var f := FirstMember(ms, id);
    PutKeys(ms[f], rec);
    forall l
      ensures l in ClientKeys(ns) <==> l in ClientKeys(ms) + {k}
    {
      InClientKeys(ns, l);
      InClientKeys(ms, l);
      forall i | 0 <= i < |ms|
        ensures l != k ==> (HasKey(ns[i], l) <==> HasKey(ms[i], l))
      {
        if l != k {
          assert AllAgree(server6, a, ms[i].clients);
          StripsOnlyKey(server6, a, ms[i], rec, l);
        }
      }
      assert HasKey(ns[f], k);
    }
  }

  /** Since addresses are unique per key, stripping by address strips no other key. */
  lemma {:induction false} StripsOnlyKey(server6: Address, a: Alloc, m: Member, rec: Client, l: Key)
    requires Valid(a) && AllAgree(server6, a, m.clients) && rec.key != "" && Agrees(server6, a, rec) && l != rec.key
    ensures HasKey(m.(clients := Kept(m.clients, rec)), l) <==> HasKey(m, l)
  {
    var cs := Kept(m.clients, rec);
    if HasKey(m, l) {
      var j :| 0 <= j < |m.clients| && m.clients[j].key == l;
      assert Agrees(server6, a, m.clients[j]);
      InKept(m.clients, rec, m.clients[j]);
      assert m.clients[j] in cs;
    }
    if HasKey(m.(clients := cs), l) {
      var j :| 0 <= j < |cs| && cs[j].key == l;
      InKept(m.clients, rec, cs[j]);
    }
  }

  lemma {:induction false} PutKeys(m: Member, rec: Client)
    requires rec.key != ""
    ensures forall l :: HasKey(m.(clients := PutClient(m.clients, rec)), l) <==> HasKey(m, l) || l == rec.key
  {
    var ds := PutClient(m.clients, rec);
    var n := m.(clients := ds);
    var f := FirstClient(m.clients, rec.key);
    assert ds[f].key == rec.key;
    forall l
      ensures HasKey(n, l) <==> HasKey(m, l) || l == rec.key
    {
      if HasKey(m, l) {
        var j :| 0 <= j < |m.clients| && m.clients[j].key == l;
        assert ds[j].key == l;
      }
      if HasKey(n, l) {
        var j :| 0 <= j < |ds| && ds[j].key == l;
        assert j < |m.clients| ==> m.clients[j].key == l;
      }
    }
  }

  /** Every peer stays an ACL client at its allocator address, except exactly when AddPeer failed for a
      key that already was a peer: the rollback drops its record and address but not the peer. */
  lemma {:induction false} ProvisionPeersIff(env: Env, s: State, id: string, k: Key, addOk: bool)
    requires Agreement(env, s) && PeersAgree(s) && FirstMember(s.members, id) < |s.members|
    ensures PeersAgree(Install(env, s, id, k, addOk).0) <==> !(RolledBack(env, s, id, k, addOk) && k in s.peers)
  {
    var (a, ip) := Allocate(s.alloc, k);
    AllocateLowestFree(s.alloc, k);
    StepKeeps(s.alloc, DoAllocate(k));
    if ip.Some? && k != "" {
      AgreeExtends(env.server6, s.alloc, a, s.members);
      AddClientShape(s.members, id, Record(env, k, ip.value));
      AddClientKeys(env.server6, a, s.members, id, Record(env, k, ip.value));
      if addOk {
        InstalledPeers(env, s, id, k);
      } else {
        RolledBackPeers(env, s, id, k);
      }
    } else {
      BlankKeyPeers(env, s, id, k, addOk);
    }
  }

  lemma {:induction false} BlankKeyPeers(env: Env, s: State, id: string, k: Key, addOk: bool)
    requires Agreement(env, s) && PeersAgree(s) && (k == "" || Allocate(s.alloc, k).1.None?)
    ensures PeersAgree(Install(env, s, id, k, addOk).0)
  {
    AllocateLowestFree(s.alloc, k);
    assert "" !in s.peers;
  }

  lemma {:induction false} InstalledPeers(env: Env, s: State, id: string, k: Key)
    requires Valid(s.alloc) && PeersAgree(s) && k != "" && Allocate(s.alloc, k).1.Some?
    requires var (a, ip) := Allocate(s.alloc, k);
             var (ok, ms) := AddClient(s.members, id, Record(env, k, ip.value));
             ok && ClientKeys(ms) == ClientKeys(s.members) + {k}
    ensures PeersAgree(Install(env, s, id, k, true).0)
  {
  }

  lemma {:induction false} RolledBackPeers(env: Env, s: State, id: string, k: Key)
    requires Valid(s.alloc) && PeersAgree(s) && k != "" && Allocate(s.alloc, k).1.Some?
    requires var (a, ip) := Allocate(s.alloc, k);
             var (ok, ms) := AddClient(s.members, id, Record(env, k, ip.value));
             ok && ClientKeys(ms) == ClientKeys(s.members) + {k} && Extends(s.alloc, a)
    ensures PeersAgree(Install(env, s, id, k, false).0) <==> k !in s.peers
  {
    var (a, ip) := Allocate(s.alloc, k);
    var ms := AddClient(s.members, id, Record(env, k, ip.value)).1;
    var s' := Install(env, s, id, k, false).0;
    assert s' == s.(members := RemoveClient(ms, id, k).1, alloc := Release(a, k));
    if k !in s.peers {
      OthersUndisturbed(s, a, k, ms, id);
    }
  }

  lemma {:induction false} OthersUndisturbed(s: State, a: Alloc, k: Key, ms: seq<Member>, id: string)
    requires PeersAgree(s) && Extends(s.alloc, a) && k !in s.peers && ClientKeys(ms) == ClientKeys(s.members) + {k}
    ensures PeersAgree(s.(members := RemoveClient(ms, id, k).1, alloc := Release(a, k)))
  {
    forall l | l in s.peers
      ensures l in ClientKeys(RemoveClient(ms, id, k).1) && l in Release(a, k).bound
              && s.peers[l] == Release(a, k).bound[l]
    {
      assert l in ClientKeys(s.members) && l != k;
      RemoveKeepsOthers(ms, id, k, l);
    }
  }

  lemma {:induction false} RemoveKeepsOthers(ms: seq<Member>, id: string, k: Key, l: Key)
    requires l != k && l in ClientKeys(ms)
    ensures l in ClientKeys(RemoveClient(ms, id, k).1)
  {
    var ns := RemoveClient(ms, id, k).1;
    InClientKeys(ms, l);
    InClientKeys(ns, l);
    var i :| 0 <= i < |ms| && HasKey(ms[i], l);
    if i == FirstMember(ms, id) {
      var j :| 0 <= j < |ms[i].clients| && ms[i].clients[j].key == l;
      InWithoutKey(ms[i].clients, k, ms[i].clients[j]);
      var j' :| 0 <= j' < |ns[i].clients| && ns[i].clients[j'] == ms[i].clients[j];
      assert HasKey(ns[i], l);
    } else {
      assert HasKey(ns[i], l);
    }
  }

  /** Member g is the last to list k once the first member with this id has been given it: AddClient strips
      k from other members, but not from later ones of the same id. */
  ghost predicate ListsLast(ms: seq<Member>, id: string, k: Key, g: nat) {
    && g < |ms| && ms[g].id == id && (g == FirstMember(ms, id) || HasKey(ms[g], k))
    && forall i :: g < i < |ms| && ms[i].id == id ==> !HasKey(ms[i], k)
  }

  lemma {:induction false} SomeoneListsLast(ms: seq<Member>, id: string, k: Key, n: nat) returns (g: nat)
    requires FirstMember(ms, id) <= n < |ms| && forall i :: n < i < |ms| && ms[i].id == id ==> !HasKey(ms[i], k)
    ensures ListsLast(ms, id, k, g)
  {
    if n == FirstMember(ms, id) || (ms[n].id == id && HasKey(ms[n], k)) {
      g := n;
    } else {
      g := SomeoneListsLast(ms, id, k, n - 1);
    }
  }

  /** A provisioned key is a peer at once; the next push would install it if and only if the member that
      then lists it last is not suspended. With distinct ids that is the member that provisioned it. */
  lemma {:induction false} ProvisionedWantedIff(env: Env, s: State, id: string, k: Key) returns (g: nat)
    requires k != "" && FirstMember(s.members, id) < |s.members| && Allocate(s.alloc, k).1.Some?
    ensures ListsLast(s.members, id, k, g) && (DistinctIds(s.members) ==> g == FirstMember(s.members, id))
    ensures var s' := Install(env, s, id, k, true).0;
            k in s'.peers && (Wanted(s'.members, k) <==> s.members[g].status != "suspended")
  {
    g := SomeoneListsLast(s.members, id, k, |s.members| - 1);
    var rec := Record(env, k, Allocate(s.alloc, k).1.value);
    AddClientShape(s.members, id, rec);
    var ns := AddClient(s.members, id, rec).1;
    PutKeys(s.members[FirstMember(s.members, id)], rec);
    forall i | g < i < |ns|
      ensures !HasKey(ns[i], k)
    {
      NoKeyKept(s.members[i], rec);
    }
    LastMatchIs(ns, HasKey, k, g);
  }

  // ---- membership ----

  ghost predicate SamePeople(ms: seq<Member>, ns: seq<Member>) {
    |ns| == |ms| && forall i :: 0 <= i < |ns| ==> ns[i] == ms[i].(clients := ns[i].clients)
  }

  /** Ids do not change, so a member listed before is still listed. */
  lemma {:induction false} StillListed(ms: seq<Member>, ns: seq<Member>, i: nat)
    requires SamePeople(ms, ns) && i < |ms|
    ensures FirstMember(ns, ms[i].id) < |ns|
  {
  }

  lemma {:induction false} InstallSamePeople(env: Env, s: State, id: string, k: Key, addOk: bool)
    ensures SamePeople(s.members, Install(env, s, id, k, addOk).0.members)
  {
    var (a, ip) := Allocate(s.alloc, k);
    if ip.Some? && k != "" {
      AddRemoveSamePeople(s.members, id, Record(env, k, ip.value));
    }
  }

  lemma {:induction false} AddRemoveSamePeople(ms: seq<Member>, id: string, rec: Client)
    ensures var (ok, ns) := AddClient(ms, id, rec);
            SamePeople(ms, ns) && SamePeople(ms, RemoveClient(ns, id, rec.key).1)
  {
    var st := StripOthers(ms, id, rec);
    assert SamePeople(ms, st);
    var ns := AddClient(ms, id, rec).1;
    assert SamePeople(ms, ns);
    var rs := RemoveClient(ns, id, rec.key).1;
    assert SamePeople(ns, rs);
  }

  /** More signed, but nothing that could be a certificate. */
  ghost predicate SignsMore(env: Env, log: Log, log': Log) {
    log <= log' && forall m :: m in log' && m !in log ==> IsLease(env, m) || IsOther(m)
  }

  lemma {:induction false} AnswerSigns(env: Env, s: State, k: Key, ip: Address, nonce: string)
    ensures var t := Answer(env, s, k, ip, nonce).0; t == s.(log := t.log) && SignsMore(env, s.log, t.log)
  {
    if MintLease(env, k, ip).Ok? {
      assert IsLease(env, LeaseBytes(env, MintLease(env, k, ip).value));
    }
  }

  lemma {:induction false} InstallSignsNothing(env: Env, s: State, id: string, k: Key, addOk: bool)
    ensures Install(env, s, id, k, addOk).0.log == s.log
  {
  }

  /** The state after a provision is the installed one, with at most a transcript and a lease signed. */
  lemma {:induction false} ProvisionIsInstall(env: Env, s: State, id: string, k: Key, nonce: string, addOk: bool)
    ensures var t, t' := Install(env, s, id, k, addOk).0, Provision(env, s, id, k, nonce, addOk).0;
            && t' == t.(log := t'.log) && t.log == s.log
            && SignsMore(env, s.log, t'.log)
  {
    var (t, ip) := Install(env, s, id, k, addOk);
    InstallSignsNothing(env, s, id, k, addOk);
    if ip.Some? {
      AnswerSigns(env, t, k, ip.value, nonce);
    }
  }

  lemma {:induction false} ProvisionKeepsNonces(env: Env, s: State, id: string, k: Key, nonce: string, addOk: bool)
    ensures Provision(env, s, id, k, nonce, addOk).0.nonces == s.nonces
  {
  }

  /** Provisioning changes nobody's id, role, key or certificate, and signs no certificate. */
  lemma {:induction false} ProvisionKeepsTrust(env: Env, owner: string, s: State, id: string, k: Key, nonce: string,
                                               addOk: bool)
    requires Trusted(env, owner, s)
    ensures Trusted(env, owner, Provision(env, s, id, k, nonce, addOk).0)
    ensures DistinctIds(s.members) ==> DistinctIds(Provision(env, s, id, k, nonce, addOk).0.members)
  {
    ProvisionIsInstall(env, s, id, k, nonce, addOk);
    InstallSamePeople(env, s, id, k, addOk);
    TrustCarries(env, owner, s, Provision(env, s, id, k, nonce, addOk).0);
  }

  lemma {:induction false} TrustCarries(env: Env, owner: string, s: State, t: State)
    requires Trusted(env, owner, s) && SamePeople(s.members, t.members) && t.pin == s.pin
    requires SignsMore(env, s.log, t.log) && (t.saved == s.saved || t.saved == t.members)
    ensures Trusted(env, owner, t)
  {
  }
}
