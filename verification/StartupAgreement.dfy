/** What startup reconciliation achieves on a compatible state. */
module StartupAgreement {
  import opened Base
  import opened Addresses
  import opened Allocator
  import opened Wire
  import opened Acl
  import opened Signing
  import opened DeviceState
  import opened Startup
  import Ad = Addressing

  // ---- positions in the flat list ----

  function Offset(ms: seq<Member>, i: nat): nat
    requires i <= |ms|
  {
    |Flat(ms[..i])|
  }

  lemma {:induction false} FlatAt(ms: seq<Member>, i: nat, j: nat)
    requires Pos(ms, i, j)
    ensures Offset(ms, i) + j < |Flat(ms)| && Flat(ms)[Offset(ms, i) + j] == ms[i].clients[j]
    ensures i + 1 < |ms| ==> Offset(ms, i) + j < Offset(ms, i + 1)
  {
    var n := |ms| - 1;
    assert ms[..i + 1][..i] == ms[..i];
    if i < n {
      FlatAt(ms[..n], i, j);
      assert ms[..n][..i] == ms[..i];
      assert i + 1 <= n && ms[..n][..i + 1] == ms[..i + 1];
    }
  }

  lemma {:induction false} OffsetMonotone(ms: seq<Member>, i: nat, j: nat)
    requires i <= j <= |ms|
    ensures Offset(ms, i) <= Offset(ms, j)
  {
    if i < j {
      OffsetMonotone(ms, i, j - 1);
      assert ms[..j][..j - 1] == ms[..j - 1];
    }
  }

  ghost predicate KeysApart(ms: seq<Member>) {
    forall i, j, i', j' :: (Pos(ms, i, j) && Pos(ms, i', j') && ms[i].clients[j].key != ""
                            && ms[i].clients[j].key == ms[i'].clients[j'].key)
                           ==> i == i' && j == j'
  }

  lemma {:induction false} FlatApart(a: Alloc, cs: seq<Client>, x: nat, y: nat)
    requires Once(a, cs) && x < |cs| && y < |cs| && cs[x].key != "" && cs[x].key == cs[y].key
    ensures x == y
  {
  }

  lemma {:induction false} OnceApart(a: Alloc, ms: seq<Member>)
    requires Once(a, Flat(ms))
    ensures KeysApart(ms)
  {
    forall i, j, i', j' | Pos(ms, i, j) && Pos(ms, i', j') && ms[i].clients[j].key != ""
      && ms[i].clients[j].key == ms[i'].clients[j'].key
      ensures i == i' && j == j'
    {
      FlatAt(ms, i, j);
      FlatAt(ms, i', j');
      FlatApart(a, Flat(ms), Offset(ms, i) + j, Offset(ms, i') + j');
      if i < i' {
        OffsetMonotone(ms, i + 1, i');
      } else if i' < i {
        OffsetMonotone(ms, i' + 1, i);
      }
    }
  }

  // ---- the allocator while clients are revived ----

  /** Every ACL address in the subnet belongs to its client, and none to anyone else. */
  ghost predicate Guarded(a: Alloc, cs: seq<Client>) {
    Valid(a) && Canonical(a) && AllReserve(a, cs) && NoneStolen(a, cs)
  }

  lemma {:induction false} PickAddressOk(a: Alloc, cs: seq<Client>, c: Client)
    requires Guarded(a, cs) && c in cs && c.key != ""
    ensures var (b, ip) := PickAddress(a, c);
            && Guarded(b, cs) && Extends(a, b)
            && (ip.Some? ==> c.key in b.bound && b.bound[c.key] == ip.value && InSubnet(a, ip.value))
            && (InSubnet(a, c.ip4) ==> ip == Some(c.ip4))
  {
    var x :| 0 <= x < |cs| && cs[x] == c;
    assert Reserves(a, cs[x]);
    if Renumbered(a, c) {
      AllocateLowestFree(a, c.key);
      StepKeeps(a, DoAllocate(c.key));
      var (b, ip) := Allocate(a, c.key);
      if c.key in a.bound {
        assert Holdable(a, a.bound[c.key]);
      } else {
        AllocateGuards(a, cs, c.key);
      }
    }
  }

  lemma {:induction false} AllocateGuards(a: Alloc, cs: seq<Client>, k: Key)
    requires Guarded(a, cs) && k !in a.bound
    ensures Guarded(Allocate(a, k).0, cs)
  {
  }

  // ---- the member list while clients are revived ----

  lemma {:induction false} KeptAll(cs: seq<Client>, rec: Client)
    requires forall j :: 0 <= j < |cs| ==> !Stripped(cs[j], rec)
    ensures Kept(cs, rec) == cs
  {
    if cs != [] {
      KeptAll(cs[..|cs| - 1], rec);
    }
  }

  /** When nothing of another member is stripped, AddClient touches the first member of its id only. */
  lemma {:induction false} AddClientInto(ns: seq<Member>, id: string, f: nat, rec: Client)
    requires f < |ns| && FirstMember(ns, id) == f && rec.key != ""
    requires forall i, j :: Pos(ns, i, j) && ns[i].id != id ==> !Stripped(ns[i].clients[j], rec)
    ensures AddClient(ns, id, rec).1 == ns[f := ns[f].(clients := PutClient(ns[f].clients, rec))]
  {
    var st := StripOthers(ns, id, rec);
    forall i | 0 <= i < |ns|
      ensures st[i] == ns[i]
    {
      if ns[i].id != id {
        assert forall j :: 0 <= j < |ns[i].clients| ==> Pos(ns, i, j);
        KeptAll(ns[i].clients, rec);
      }
    }
    assert st == ns;
  }

  /** The client after revival, given its binding. */
  function Revived(env: Env, a: Alloc, c: Client): Client
    requires c.key in a.bound
  {
    c.(ip4 := a.bound[c.key], ip6 := Or(TunnelIPv6(env.server6, a.bound[c.key]), NoAddress, c.ip6))
  }

  /** AddClient finds a member by id, so of several namesakes the first. */
  predicate Leads(ms: seq<Member>, i: nat)
    requires i < |ms|
  {
    FirstMember(ms, ms[i].id) == i
  }

  predicate Served(ms: seq<Member>, i: int, j: int) {
    Pos(ms, i, j) && ms[i].IsActive() && ms[i].clients[j].key != ""
  }

  predicate Before(i': int, j': int, i: int, j: int) {
    i' < i || (i' == i && j' < j)
  }

  /** What has become of client (i, j), now at d: revived if its turn has come, else untouched. */
  ghost predicate Became(env: Env, a: Alloc, ms: seq<Member>, i: nat, j: nat, d: Client, turn: bool)
    requires Pos(ms, i, j)
  {
    var c := ms[i].clients[j];
    if turn && Served(ms, i, j) then c.key in a.bound && d == if Leads(ms, i) then Revived(env, a, c) else c
    else d == c
  }

  /** Member i has been given the revived record d of client (x, y), which belongs to a later namesake. */
  ghost predicate CopyOf(env: Env, a: Alloc, ms: seq<Member>, i: nat, d: Client, x: nat, y: nat) {
    Served(ms, x, y) && !Leads(ms, x) && FirstMember(ms, ms[x].id) == i
    && var c := ms[x].clients[y]; c.key in a.bound && d == RevivedRecord(env, c, a.bound[c.key])
  }

  /** A record of ns that ms did not have is a copy. */
  ghost predicate Copied(env: Env, a: Alloc, ms: seq<Member>, i': nat, d: Client, i: nat, j: nat) {
    exists x: nat, y: nat :: CopyOf(env, a, ms, i', d, x, y) && Before(x, y, i, j)
  }

  /** Client (x, y) of a later namesake has been copied to the first. */
  ghost predicate HasCopy(env: Env, a: Alloc, ms: seq<Member>, ns: seq<Member>, x: nat, y: nat)
    requires Pos(ms, x, y)
  {
    var f := FirstMember(ms, ms[x].id);
    f < |ns| && exists j :: 0 <= j < |ns[f].clients| && CopyOf(env, a, ms, f, ns[f].clients[j], x, y)
  }

  predicate SameShape(ms: seq<Member>, ns: seq<Member>) {
    |ns| == |ms|
    && forall i :: 0 <= i < |ms| ==> ns[i] == ms[i].(clients := ns[i].clients) && |ns[i].clients| >= |ms[i].clients|
  }

  ghost predicate Progress(env: Env, a: Alloc, ms: seq<Member>, ns: seq<Member>, i: nat, j: nat) {
    && SameShape(ms, ns)
    && (forall i', j' :: Pos(ms, i', j') ==> Became(env, a, ms, i', j', ns[i'].clients[j'], Before(i', j', i, j)))
    && (forall i', j' :: Pos(ns, i', j') && j' >= |ms[i'].clients| ==> Copied(env, a, ms, i', ns[i'].clients[j'], i, j))
    && (forall x, y :: Served(ms, x, y) && !Leads(ms, x) && Before(x, y, i, j) ==> HasCopy(env, a, ms, ns, x, y))
  }

  lemma {:induction false} SameLeaders(ms: seq<Member>, ns: seq<Member>, id: string)
    requires SameShape(ms, ns)
    ensures FirstMember(ns, id) == FirstMember(ms, id)
  {
    var f, g := FirstMember(ms, id), FirstMember(ns, id);
    assert f < |ms| ==> ns[f].id == id;
    assert g < |ns| ==> ms[g].id == id;
  }

  /** New bindings change nothing already done. */
  lemma {:induction false} ProgressGrows(env: Env, a: Alloc, b: Alloc, ms: seq<Member>, ns: seq<Member>, i: nat, j: nat)
    requires Extends(a, b) && Progress(env, a, ms, ns, i, j)
    ensures Progress(env, b, ms, ns, i, j)
  {
    forall i', j' | Pos(ms, i', j')
      ensures Became(env, b, ms, i', j', ns[i'].clients[j'], Before(i', j', i, j))
    {
      assert Became(env, a, ms, i', j', ns[i'].clients[j'], Before(i', j', i, j));
    }
    forall i', j' | Pos(ns, i', j') && j' >= |ms[i'].clients|
      ensures Copied(env, b, ms, i', ns[i'].clients[j'], i, j)
    {
      assert Copied(env, a, ms, i', ns[i'].clients[j'], i, j);
      var x: nat, y: nat :| CopyOf(env, a, ms, i', ns[i'].clients[j'], x, y) && Before(x, y, i, j);
      assert CopyOf(env, b, ms, i', ns[i'].clients[j'], x, y);
    }
    forall x, y | Served(ms, x, y) && !Leads(ms, x) && Before(x, y, i, j)
      ensures HasCopy(env, b, ms, ns, x, y)
    {
      assert HasCopy(env, a, ms, ns, x, y);
      var f := FirstMember(ms, ms[x].id);
      var k :| 0 <= k < |ns[f].clients| && CopyOf(env, a, ms, f, ns[f].clients[k], x, y);
      assert CopyOf(env, b, ms, f, ns[f].clients[k], x, y);
    }
  }

  /** Whose record (i', j') of the rebuilt list is: the client there, or the one it is a copy of. */
  lemma {:induction false} Origin(env: Env, a: Alloc, ms: seq<Member>, ns: seq<Member>, i: nat, j: nat, i': nat,
                                  j': nat) returns (x: nat, y: nat)
    requires Progress(env, a, ms, ns, i, j) && Pos(ns, i', j')
    ensures Pos(ms, x, y) && ms[x].id == ms[i'].id && ns[i'].clients[j'].key == ms[x].clients[y].key
    ensures (x, y) == (i', j') || (Before(x, y, i, j) && x != i')
    ensures var c, d := ms[x].clients[y], ns[i'].clients[j'];
            d.ip4 == c.ip4 || (d.key in a.bound && d.ip4 == a.bound[d.key])
  {
    var d := ns[i'].clients[j'];
    if j' < |ms[i'].clients| {
      x, y := i', j';
      assert Became(env, a, ms, x, y, d, Before(x, y, i, j));
    } else {
      assert Copied(env, a, ms, i', d, i, j);
      x, y :| CopyOf(env, a, ms, i', d, x, y) && Before(x, y, i, j);
    }
  }

  /** Nobody else has the key, or the address bound to it. */
  lemma {:induction false} NothingStripped(env: Env, b: Alloc, ms: seq<Member>, ns: seq<Member>, i: nat, j: nat,
                                           rec: Client, i': nat, j': nat)
    requires Guarded(b, Flat(ms)) && KeysApart(ms) && Progress(env, b, ms, ns, i, j)
    requires Pos(ms, i, j) && rec.key == ms[i].clients[j].key && rec.key != "" && rec.key in b.bound
             && rec.ip4 == b.bound[rec.key]
    requires Pos(ns, i', j') && ns[i'].id != ms[i].id
    ensures !Stripped(ns[i'].clients[j'], rec)
  {
    var x, y := Origin(env, b, ms, ns, i, j, i', j');
    assert ms[x].clients[y].key != rec.key;
    FlatAt(ms, x, y);
    assert NotStolen(b, Flat(ms)[Offset(ms, x) + y]);
    assert Holdable(b, b.bound[rec.key]);
  }

  lemma {:induction false} ReviveInto(env: Env, b: Alloc, ms: seq<Member>, ns: seq<Member>, i: nat, j: nat)
    requires Guarded(b, Flat(ms)) && KeysApart(ms) && Progress(env, b, ms, ns, i, j)
    requires Served(ms, i, j) && ms[i].clients[j].key in b.bound
    ensures var c := ms[i].clients[j];
            var rec := RevivedRecord(env, c, b.bound[c.key]);
            var f := FirstMember(ms, ms[i].id);
            f <= i && AddClient(ns, ms[i].id, rec).1 == ns[f := ns[f].(clients := PutClient(ns[f].clients, rec))]
  {
    var c := ms[i].clients[j];
    var rec := RevivedRecord(env, c, b.bound[c.key]);
    forall i', j' | Pos(ns, i', j') && ns[i'].id != ms[i].id
      ensures !Stripped(ns[i'].clients[j'], rec)
    {
      NothingStripped(env, b, ms, ns, i, j, rec, i', j');
    }
    SameLeaders(ms, ns, ms[i].id);
    AddClientInto(ns, ms[i].id, FirstMember(ms, ms[i].id), rec);
  }

  // The client's own record is updated if its member leads its namesakes.

  lemma {:induction false} PutLeading(env: Env, b: Alloc, ms: seq<Member>, ns: seq<Member>, i: nat, j: nat)
    requires KeysApart(ms) && Valid(b) && Progress(env, b, ms, ns, i, j)
    requires Served(ms, i, j) && Leads(ms, i) && ms[i].clients[j].key in b.bound
             && b.bound[ms[i].clients[j].key] != NoAddress
    ensures var c := ms[i].clients[j];
            PutClient(ns[i].clients, RevivedRecord(env, c, b.bound[c.key])) == ns[i].clients[j := Revived(env, b, c)]
  {
    var c := ms[i].clients[j];
    var rec := RevivedRecord(env, c, b.bound[c.key]);
    forall j' | 0 <= j' < j
      ensures ns[i].clients[j'].key != c.key
    {
      assert Pos(ms, i, j');
      assert Became(env, b, ms, i, j', ns[i].clients[j'], Before(i, j', i, j));
    }
    assert Became(env, b, ms, i, j, ns[i].clients[j], Before(i, j, i, j));
    assert FirstClient(ns[i].clients, c.key) == j;
    assert FillBlanks(rec, c) == Revived(env, b, c);
  }

  /** Other records of member f keep standing in rs for what they were. */
  ghost predicate OnlyAt(ns: seq<Member>, rs: seq<Member>, f: nat, j: nat) {
    |rs| == |ns| && f < |ns|
    && rs[f] == ns[f].(clients := rs[f].clients) && |rs[f].clients| >= |ns[f].clients|
    && (forall i :: 0 <= i < |ns| && i != f ==> rs[i] == ns[i])
    && (forall j' :: 0 <= j' < |ns[f].clients| && j' != j ==> rs[f].clients[j'] == ns[f].clients[j'])
  }

  lemma {:induction false} CopiesStay(env: Env, b: Alloc, ms: seq<Member>, ns: seq<Member>, rs: seq<Member>, f: nat,
                                      j: nat, x: nat, y: nat)
    requires OnlyAt(ns, rs, f, j) && Pos(ms, x, y) && HasCopy(env, b, ms, ns, x, y)
    requires FirstMember(ms, ms[x].id) == f && j < |ns[f].clients| ==> ns[f].clients[j].key != ms[x].clients[y].key
    ensures HasCopy(env, b, ms, rs, x, y)
  {
    var g := FirstMember(ms, ms[x].id);
    var k :| 0 <= k < |ns[g].clients| && CopyOf(env, b, ms, g, ns[g].clients[k], x, y);
    assert rs[g].clients[k] == ns[g].clients[k];
  }

  /** Client (i, j) has had its turn, and every other client stands as it did. */
  lemma {:induction false} BecameStep(env: Env, b: Alloc, ms: seq<Member>, ns: seq<Member>, i: nat, j: nat,
                                      rs: seq<Member>)
    requires Progress(env, b, ms, ns, i, j) && SameShape(ms, rs) && Served(ms, i, j) && ms[i].clients[j].key in b.bound
    requires forall i', j' :: Pos(ms, i', j') && (i' != i || j' != j) ==> rs[i'].clients[j'] == ns[i'].clients[j']
    requires rs[i].clients[j] == if Leads(ms, i) then Revived(env, b, ms[i].clients[j]) else ns[i].clients[j]
    ensures forall i', j' :: Pos(ms, i', j') ==>
            Became(env, b, ms, i', j', rs[i'].clients[j'], Before(i', j', i, j + 1))
  {
    forall i', j' | Pos(ms, i', j')
      ensures Became(env, b, ms, i', j', rs[i'].clients[j'], Before(i', j', i, j + 1))
    {
      assert Became(env, b, ms, i', j', ns[i'].clients[j'], Before(i', j', i, j));
    }
  }

  lemma {:induction false} StepLeading(env: Env, b: Alloc, ms: seq<Member>, ns: seq<Member>, i: nat, j: nat,
                                       rs: seq<Member>)
    requires KeysApart(ms) && Progress(env, b, ms, ns, i, j)
    requires Served(ms, i, j) && Leads(ms, i) && ms[i].clients[j].key in b.bound
    requires rs == ns[i := ns[i].(clients := ns[i].clients[j := Revived(env, b, ms[i].clients[j])])]
    ensures Progress(env, b, ms, rs, i, j + 1)
  {
    BecameStep(env, b, ms, ns, i, j, rs);
    forall i', j' | Pos(rs, i', j') && j' >= |ms[i'].clients|
      ensures Copied(env, b, ms, i', rs[i'].clients[j'], i, j + 1)
    {
      CopiedLater(env, b, ms, ns, i, j, i', j');
      assert rs[i'].clients[j'] == ns[i'].clients[j'];
    }
    assert Became(env, b, ms, i, j, ns[i].clients[j], Before(i, j, i, j));
    forall x, y | Served(ms, x, y) && !Leads(ms, x) && Before(x, y, i, j + 1)
      ensures HasCopy(env, b, ms, rs, x, y)
    {
      assert Before(x, y, i, j);
      CopiesStay(env, b, ms, ns, rs, i, j, x, y);
    }
  }

  lemma {:induction false} CopiedLater(env: Env, b: Alloc, ms: seq<Member>, ns: seq<Member>, i: nat, j: nat, i': nat,
                                       j': nat)
    requires Progress(env, b, ms, ns, i, j) && Pos(ns, i', j') && j' >= |ms[i'].clients|
    ensures Copied(env, b, ms, i', ns[i'].clients[j'], i, j + 1)
  {
    assert Copied(env, b, ms, i', ns[i'].clients[j'], i, j);
    var x: nat, y: nat :| CopyOf(env, b, ms, i', ns[i'].clients[j'], x, y) && Before(x, y, i, j);
    assert Before(x, y, i, j + 1);
  }

  // Otherwise a copy is added to the member that does.

  lemma {:induction false} PutCopy(env: Env, b: Alloc, ms: seq<Member>, ns: seq<Member>, i: nat, j: nat, f: nat,
                                   rec: Client)
    requires KeysApart(ms) && Progress(env, b, ms, ns, i, j)
    requires Served(ms, i, j) && !Leads(ms, i) && f == FirstMember(ms, ms[i].id) && rec.key == ms[i].clients[j].key
    ensures f < |ns| && PutClient(ns[f].clients, rec) == ns[f].clients + [rec]
  {
    forall j' | 0 <= j' < |ns[f].clients|
      ensures ns[f].clients[j'].key != rec.key
    {
      var x, y := Origin(env, b, ms, ns, i, j, f, j');
    }
    assert FirstClient(ns[f].clients, rec.key) == |ns[f].clients|;
  }

  lemma {:induction false} StepCopy(env: Env, b: Alloc, ms: seq<Member>, ns: seq<Member>, i: nat, j: nat, f: nat,
                                    rs: seq<Member>)
    requires Progress(env, b, ms, ns, i, j)
    requires Served(ms, i, j) && !Leads(ms, i) && f == FirstMember(ms, ms[i].id) && f < |ns|
             && ms[i].clients[j].key in b.bound
    requires var c := ms[i].clients[j];
             rs == ns[f := ns[f].(clients := ns[f].clients + [RevivedRecord(env, c, b.bound[c.key])])]
    ensures Progress(env, b, ms, rs, i, j + 1)
  {
    var n := |ns[f].clients|;
    assert CopyOf(env, b, ms, f, rs[f].clients[n], i, j);
    BecameStep(env, b, ms, ns, i, j, rs);
    forall i', j' | Pos(rs, i', j') && j' >= |ms[i'].clients|
      ensures Copied(env, b, ms, i', rs[i'].clients[j'], i, j + 1)
    {
      if i' == f && j' == n {
        assert Before(i, j, i, j + 1);
      } else {
        CopiedLater(env, b, ms, ns, i, j, i', j');
      }
    }
    forall x, y | Served(ms, x, y) && !Leads(ms, x) && Before(x, y, i, j + 1)
      ensures HasCopy(env, b, ms, rs, x, y)
    {
      if (x, y) != (i, j) {
        assert Before(x, y, i, j);
        CopiesStay(env, b, ms, ns, rs, f, n, x, y);
      }
    }
  }

  /** One more client revived in the list. */
  lemma {:induction false} ReviveAt(env: Env, a: Alloc, b: Alloc, ms: seq<Member>, ns: seq<Member>, i: nat, j: nat)
    requires Guarded(b, Flat(ms)) && Extends(a, b) && KeysApart(ms) && Progress(env, a, ms, ns, i, j)
    requires Served(ms, i, j) && ms[i].clients[j].key in b.bound
    ensures var c := ms[i].clients[j];
            Progress(env, b, ms, AddClient(ns, ms[i].id, RevivedRecord(env, c, b.bound[c.key])).1, i, j + 1)
  {
    var c, f := ms[i].clients[j], FirstMember(ms, ms[i].id);
    var rec := RevivedRecord(env, c, b.bound[c.key]);
    ProgressGrows(env, a, b, ms, ns, i, j);
    ReviveInto(env, b, ms, ns, i, j);
    assert Holdable(b, b.bound[c.key]);
    var rs := AddClient(ns, ms[i].id, rec).1;
    if Leads(ms, i) {
      PutLeading(env, b, ms, ns, i, j);
      StepLeading(env, b, ms, ns, i, j, rs);
    } else {
      PutCopy(env, b, ms, ns, i, j, f, rec);
      StepCopy(env, b, ms, ns, i, j, f, rs);
    }
  }

  lemma {:induction false} StepSkip(env: Env, a: Alloc, ms: seq<Member>, ns: seq<Member>, i: nat, j: nat)
    requires Progress(env, a, ms, ns, i, j) && Pos(ms, i, j) && !Served(ms, i, j)
    ensures Progress(env, a, ms, ns, i, j + 1)
  {
    forall i', j' | Pos(ms, i', j')
      ensures Became(env, a, ms, i', j', ns[i'].clients[j'], Before(i', j', i, j + 1))
    {
      assert Became(env, a, ms, i', j', ns[i'].clients[j'], Before(i', j', i, j));
    }
    forall i', j' | Pos(ns, i', j') && j' >= |ms[i'].clients|
      ensures Copied(env, a, ms, i', ns[i'].clients[j'], i, j + 1)
    {
      CopiedLater(env, a, ms, ns, i, j, i', j');
    }
  }

  /** Past the last client of a member is before the first of the next. */
  lemma {:induction false} NextMember(env: Env, a: Alloc, ms: seq<Member>, ns: seq<Member>, i: nat, j: nat)
    requires Progress(env, a, ms, ns, i, j) && i < |ms| && (j == |ms[i].clients| || !ms[i].IsActive())
    ensures Progress(env, a, ms, ns, i + 1, 0)
  {
    forall i', j' | Pos(ms, i', j')
      ensures Became(env, a, ms, i', j', ns[i'].clients[j'], Before(i', j', i + 1, 0))
    {
      assert Became(env, a, ms, i', j', ns[i'].clients[j'], Before(i', j', i, j));
    }
    forall i', j' | Pos(ns, i', j') && j' >= |ms[i'].clients|
      ensures Copied(env, a, ms, i', ns[i'].clients[j'], i + 1, 0)
    {
      assert Copied(env, a, ms, i', ns[i'].clients[j'], i, j);
      var x: nat, y: nat :| CopyOf(env, a, ms, i', ns[i'].clients[j'], x, y) && Before(x, y, i, j);
      assert Before(x, y, i + 1, 0);
    }
  }

  // ---- peers ----

  ghost predicate PeersBefore(a: Alloc, ms: seq<Member>, ps: Peers, i: nat, j: nat) {
    && (forall k :: k in ps ==> k in a.bound && ps[k] == a.bound[k] && k in ActiveKeys(ms))
    && (forall i', j' :: Served(ms, i', j') && Before(i', j', i, j) ==> ms[i'].clients[j'].key in ps)
  }

  lemma {:induction false} PeersStep(a: Alloc, b: Alloc, ms: seq<Member>, ps: Peers, i: nat, j: nat, qs: Peers)
    requires Extends(a, b) && PeersBefore(a, ms, ps, i, j) && Pos(ms, i, j) && ms[i].IsActive()
    requires var k := ms[i].clients[j].key; if k == "" then qs == ps else k in b.bound && qs == ps[k := b.bound[k]]
    ensures PeersBefore(b, ms, qs, i, j + 1)
  {
    var k := ms[i].clients[j].key;
    assert k != "" ==> k in ActiveKeys(ms);
  }

  lemma {:induction false} PeersNext(a: Alloc, ms: seq<Member>, ps: Peers, i: nat, j: nat)
    requires PeersBefore(a, ms, ps, i, j) && i < |ms| && (j == |ms[i].clients| || !ms[i].IsActive())
    ensures PeersBefore(a, ms, ps, i + 1, 0)
  {
  }

  // ---- the pass ----

  /** Everything known before position (i, j) is visited. */
  ghost predicate Going(env: Env, a0: Alloc, ms: seq<Member>, b: Rebuild, i: nat, j: nat) {
    && Guarded(b.alloc, Flat(ms)) && Extends(a0, b.alloc)
    && Progress(env, b.alloc, ms, b.members, i, j) && PeersBefore(b.alloc, ms, b.peers, i, j)
  }

  lemma {:induction false} ReviveShape(env: Env, b: Rebuild, id: string, c: Client, addOk: bool)
    requires c.key != "" && !ReviveClient(env, b, id, c, addOk).failed
    ensures var (a, ip) := PickAddress(b.alloc, c);
            && !b.failed && ip.Some?
            && ReviveClient(env, b, id, c, addOk)
               == b.(alloc := a, members := AddClient(b.members, id, RevivedRecord(env, c, ip.value)).1,
                     peers := b.peers[c.key := ip.value])
  {
  }

  lemma {:induction false} ReviveKeyed(env: Env, a0: Alloc, ms: seq<Member>, b: Rebuild, i: nat, j: nat, addOk: bool)
    requires KeysApart(ms) && Pos(ms, i, j) && ms[i].IsActive() && ms[i].clients[j].key != ""
    requires Going(env, a0, ms, b, i, j)
    requires !ReviveClient(env, b, ms[i].id, ms[i].clients[j], addOk).failed
    ensures Going(env, a0, ms, ReviveClient(env, b, ms[i].id, ms[i].clients[j], addOk), i, j + 1)
  {
    var c := ms[i].clients[j];
    var r := ReviveClient(env, b, ms[i].id, c, addOk);
    FlatAt(ms, i, j);
    ReviveShape(env, b, ms[i].id, c, addOk);
    PickAddressOk(b.alloc, Flat(ms), c);
    ReviveAt(env, b.alloc, r.alloc, ms, b.members, i, j);
    PeersStep(b.alloc, r.alloc, ms, b.peers, i, j, r.peers);
    Ad.ExtendsTransitive(a0, b.alloc, r.alloc);
  }

  lemma {:induction false} ReviveClientOk(env: Env, a0: Alloc, ms: seq<Member>, b: Rebuild, i: nat, j: nat, addOk: bool)
    requires KeysApart(ms) && Pos(ms, i, j) && ms[i].IsActive()
    requires Going(env, a0, ms, b, i, j)
    requires !ReviveClient(env, b, ms[i].id, ms[i].clients[j], addOk).failed
    ensures !b.failed && Going(env, a0, ms, ReviveClient(env, b, ms[i].id, ms[i].clients[j], addOk), i, j + 1)
  {
    if ms[i].clients[j].key != "" {
      ReviveShape(env, b, ms[i].id, ms[i].clients[j], addOk);
      ReviveKeyed(env, a0, ms, b, i, j, addOk);
    } else {
      StepSkip(env, b.alloc, ms, b.members, i, j);
      PeersStep(b.alloc, b.alloc, ms, b.peers, i, j, b.peers);
    }
  }

  lemma {:induction false} ReviveClientsOk(env: Env, a0: Alloc, ms: seq<Member>, b: Rebuild, i: nat, n: nat,
                                           addOk: AddOk)
    requires KeysApart(ms) && i < |ms| && ms[i].IsActive() && n <= |ms[i].clients|
    requires Going(env, a0, ms, b, i, 0)
    requires !ReviveClients(env, b, ms[i].id, ms[i].clients[..n], i, addOk).failed
    ensures !b.failed && Going(env, a0, ms, ReviveClients(env, b, ms[i].id, ms[i].clients[..n], i, addOk), i, n)
  {
    if n > 0 {
      var cs := ms[i].clients[..n];
      assert cs[..n - 1] == ms[i].clients[..n - 1];
      var r := ReviveClients(env, b, ms[i].id, ms[i].clients[..n - 1], i, addOk);
      FailureSticks(env, r, ms[i].id, ms[i].clients[n - 1], addOk(i, n - 1));
      ReviveClientsOk(env, a0, ms, b, i, n - 1, addOk);
      ReviveClientOk(env, a0, ms, r, i, n - 1, addOk(i, n - 1));
    }
  }

  lemma {:induction false} FailureSticks(env: Env, b: Rebuild, id: string, c: Client, addOk: bool)
    ensures b.failed ==> ReviveClient(env, b, id, c, addOk).failed
  {
  }

  lemma {:induction false} ReviveMembersOk(env: Env, a0: Alloc, ms: seq<Member>, b: Rebuild, n: nat, addOk: AddOk)
    requires KeysApart(ms) && n <= |ms| && Going(env, a0, ms, b, 0, 0) && !b.failed
    requires !ReviveMembers(env, b, ms[..n], addOk).failed
    ensures Going(env, a0, ms, ReviveMembers(env, b, ms[..n], addOk), n, 0)
  {
    if n > 0 {
      var i := n - 1;
      assert ms[..n][..i] == ms[..i];
      var r := ReviveMembers(env, b, ms[..i], addOk);
      if ms[i].IsActive() {
        var cs := ms[i].clients;
        assert cs[..|cs|] == cs;
        ClientsFailureSticks(env, r, ms[i].id, cs, i, addOk);
        ReviveMembersOk(env, a0, ms, b, i, addOk);
        ReviveClientsOk(env, a0, ms, r, i, |cs|, addOk);
        var q := ReviveClients(env, r, ms[i].id, cs, i, addOk);
        NextMember(env, q.alloc, ms, q.members, i, |cs|);
        PeersNext(q.alloc, ms, q.peers, i, |cs|);
      } else {
        ReviveMembersOk(env, a0, ms, b, i, addOk);
        NextMember(env, r.alloc, ms, r.members, i, 0);
        PeersNext(r.alloc, ms, r.peers, i, 0);
      }
    }
  }

  lemma {:induction false} ClientsFailureSticks(env: Env, b: Rebuild, id: string, cs: seq<Client>, i: nat, addOk: AddOk)
    ensures b.failed ==> ReviveClients(env, b, id, cs, i, addOk).failed
  {
    if cs != [] {
      ClientsFailureSticks(env, b, id, cs[..|cs| - 1], i, addOk);
    }
  }

  // ---- the theorem ----

  /** Startup's result for client (i, j). */
  ghost predicate Settled(env: Env, a0: Alloc, ms: seq<Member>, r: Rebuild, i: nat, j: nat)
    requires Pos(ms, i, j)
  {
    var c := ms[i].clients[j];
    && Pos(r.members, i, j)
    && var d := r.members[i].clients[j];
       if Served(ms, i, j) then
         && c.key in r.alloc.bound && c.key in r.peers && r.peers[c.key] == r.alloc.bound[c.key]
         && InSubnet(a0, r.alloc.bound[c.key]) && (InSubnet(a0, c.ip4) ==> r.alloc.bound[c.key] == c.ip4)
         && (if Leads(ms, i) then d == Revived(env, r.alloc, c)
             else d == c && HasCopy(env, r.alloc, ms, r.members, i, j))
       else
         d == c && (c.key != "" && InSubnet(a0, c.ip4) ==> c.key in r.alloc.bound && r.alloc.bound[c.key] == c.ip4)
  }

  /** The records startup adds are the copies, and nothing else. */
  ghost predicate OnlyCopies(env: Env, ms: seq<Member>, r: Rebuild) {
    SameShape(ms, r.members)
    && forall i, j :: Pos(r.members, i, j) && j >= |ms[i].clients| ==>
         exists x: nat, y: nat :: CopyOf(env, r.alloc, ms, i, r.members[i].clients[j], x, y)
  }

  /** On a compatible state, if no step fails: every client of an active member has an in-subnet
      address that is its allocator binding and its peer's address, its old one if that was in the
      subnet. Its record says so, unless another member with the same id comes earlier: then the record
      is left as it was and a new one goes to that member. Every other record is untouched, and an
      in-subnet address of a suspended client stays bound to that client. The allocator staying
      injective, no two keys share an address. */
  lemma {:induction false} StartupSettles(env: Env, a: Alloc, ms: seq<Member>, addOk: AddOk)
    requires Compatible(a, ms)
    requires !ReconcilePeers(env, a, ms, map[], addOk).failed
    ensures var r := ReconcilePeers(env, a, ms, map[], addOk);
            && Valid(r.alloc) && Canonical(r.alloc) && OnlyCopies(env, ms, r)
            && r.peers.Keys == ActiveKeys(ms)
            && forall i, j :: Pos(ms, i, j) ==> Settled(env, a, ms, r, i, j)
  {
    var m := MarkMembers(a, ms);
    var b := Rebuild(m, ms, map[], false);
    var r := ReviveMembers(env, b, ms, addOk);
    AfterMarking(env, a, ms);
    OnceApart(a, ms);
    assert ms[..|ms|] == ms;
    ReviveMembersOk(env, m, ms, b, |ms|, addOk);
    AllActiveInstalled(r.alloc, ms, r.peers);
    NoStalePeers(env, a, ms, addOk);
    forall i, j | Pos(ms, i, j)
      ensures Settled(env, a, ms, r, i, j)
    {
      SettledOne(env, a, m, ms, r, i, j);
    }
    forall i, j | Pos(r.members, i, j) && j >= |ms[i].clients|
      ensures exists x: nat, y: nat :: CopyOf(env, r.alloc, ms, i, r.members[i].clients[j], x, y)
    {
      assert Copied(env, r.alloc, ms, i, r.members[i].clients[j], |ms|, 0);
    }
  }

  /** The record of client (i, j) is at the client's binding. */
  ghost predicate AtBinding(r: Rebuild, i: nat, j: nat) {
    Pos(r.members, i, j) && var d := r.members[i].clients[j]; d.key in r.alloc.bound && d.ip4 == r.alloc.bound[d.key]
  }

  /** So every served client's own record is right exactly when none that has to move has an earlier namesake. */
  lemma {:induction false} RecordsSettleIff(env: Env, a: Alloc, ms: seq<Member>, addOk: AddOk)
    requires Compatible(a, ms)
    requires !ReconcilePeers(env, a, ms, map[], addOk).failed
    ensures (forall i, j :: Served(ms, i, j) ==> AtBinding(ReconcilePeers(env, a, ms, map[], addOk), i, j))
       <==> (forall i, j :: Served(ms, i, j) && !InSubnet(a, ms[i].clients[j].ip4) ==> Leads(ms, i))
  {
    StartupSettles(env, a, ms, addOk);
    var r := ReconcilePeers(env, a, ms, map[], addOk);
    forall i, j | Served(ms, i, j)
      ensures AtBinding(r, i, j) <==> (InSubnet(a, ms[i].clients[j].ip4) || Leads(ms, i))
    {
      assert Settled(env, a, ms, r, i, j);
    }
  }

  lemma {:induction false} AfterMarking(env: Env, a: Alloc, ms: seq<Member>)
    requires Compatible(a, ms)
    ensures var m := MarkMembers(a, ms);
            m.net == a.net && m.server == a.server && Going(env, m, ms, Rebuild(m, ms, map[], false), 0, 0)
  {
    var cs := Flat(ms);
    MarkFlat(a, ms);
    MarkAll(a, cs);
    MarkedNoneStolen(a, cs, MarkMembers(a, ms));
  }

  lemma {:induction false} NoStalePeers(env: Env, a: Alloc, ms: seq<Member>, addOk: AddOk)
    requires var r := ReviveMembers(env, Rebuild(MarkMembers(a, ms), ms, map[], false), ms, addOk);
             r.peers.Keys == ActiveKeys(ms)
    ensures ReconcilePeers(env, a, ms, map[], addOk)
            == ReviveMembers(env, Rebuild(MarkMembers(a, ms), ms, map[], false), ms, addOk)
  {
  }

  lemma {:induction false} AllActiveInstalled(a: Alloc, ms: seq<Member>, ps: Peers)
    requires PeersBefore(a, ms, ps, |ms|, 0)
    ensures ps.Keys == ActiveKeys(ms)
  {
  }

  lemma {:induction false} SettledOne(env: Env, a: Alloc, m: Alloc, ms: seq<Member>, r: Rebuild, i: nat, j: nat)
    requires m.net == a.net && m.server == a.server && Pos(ms, i, j) && Going(env, m, ms, r, |ms|, 0)
    ensures Settled(env, a, ms, r, i, j)
  {
    var c := ms[i].clients[j];
    assert Became(env, r.alloc, ms, i, j, r.members[i].clients[j], Before(i, j, |ms|, 0));
    FlatAt(ms, i, j);
    assert Reserves(r.alloc, Flat(ms)[Offset(ms, i) + j]);
    if ms[i].IsActive() && c.key != "" {
      assert Holdable(r.alloc, r.alloc.bound[c.key]);
      assert Before(i, j, |ms|, 0);
    }
  }
}
