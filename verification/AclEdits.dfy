/** What the store's edits of members and clients do, entry by entry. */
module AclEdits {
  import opened Base
  import opened Text
  import opened Addresses
  import opened Allocator
  import opened Wire
  import opened Acl
  import opened Grounds

  predicate FirstWithId(ms: seq<Member>, id: string, i: int) {
    0 <= i < |ms| && ms[i].id == id && forall j :: 0 <= j < i ==> ms[j].id != id
  }

  predicate NoneWithId(ms: seq<Member>, id: string) {
    forall i :: 0 <= i < |ms| ==> ms[i].id != id
  }

  lemma {:induction false} FirstMemberIff(ms: seq<Member>, id: string, i: nat)
    ensures FirstMember(ms, id) == i <==> FirstWithId(ms, id, i) || (NoneWithId(ms, id) && i == |ms|)
  {
  }

  predicate FirstWithKey(cs: seq<Client>, k: Key, j: int) {
    0 <= j < |cs| && cs[j].key == k && forall l :: 0 <= l < j ==> cs[l].key != k
  }

  predicate LastWithKey(cs: seq<Client>, k: Key, j: int) {
    0 <= j < |cs| && cs[j].key == k && forall l :: j < l < |cs| ==> cs[l].key != k
  }

  predicate NoneWithKey(cs: seq<Client>, k: Key) {
    forall j :: 0 <= j < |cs| ==> cs[j].key != k
  }

  /** d has all of c's fields that are not blank, and p's where they are. */
  predicate Refreshed(c: Client, p: Client, d: Client) {
    && d.key == c.key
    && d.ip4 == (if c.ip4 != NoAddress then c.ip4 else p.ip4)
    && d.title == (if c.title != "" then c.title else p.title)
    && d.platform == (if c.platform != "" then c.platform else p.platform)
    && d.endpointType == (if c.endpointType != "" then c.endpointType else p.endpointType)
  }

  // ---- UpsertMember ----

  /** A returning client takes over what it leaves blank, but for its IPv6 address, from the last earlier one
      of its key. */
  ghost predicate Returns(prev: seq<Client>, c: Client, d: Client) {
    if NoneWithKey(prev, c.key) then d == c
    else d.ip6 == c.ip6 && exists j :: LastWithKey(prev, c.key, j) && Refreshed(c, prev[j], d)
  }

  ghost predicate AllReturn(prev: seq<Client>, cs: seq<Client>, ds: seq<Client>) {
    |ds| == |cs| && forall j :: 0 <= j < |cs| ==> Returns(prev, cs[j], ds[j])
  }

  lemma {:induction false} LastClientIs(cs: seq<Client>, k: Key) returns (j: nat)
    requires LastClient(cs, k).Some?
    ensures LastWithKey(cs, k, j) && cs[j] == LastClient(cs, k).value
  {
    if cs[|cs| - 1].key == k {
      j := |cs| - 1;
    } else {
      j := LastClientIs(cs[..|cs| - 1], k);
    }
  }

  lemma {:induction false} MergedReturn(prev: seq<Client>, next: seq<Client>)
    requires next != []
    ensures AllReturn(prev, next, MergeClients(prev, next))
  {
    var ds := MergeClients(prev, next);
    forall j | 0 <= j < |next|
      ensures Returns(prev, next[j], ds[j])
    {
      if LastClient(prev, next[j].key).Some? {
        var l := LastClientIs(prev, next[j].key);
        assert Refreshed(next[j], prev[l], ds[j]);
      }
    }
  }

  /** A member with a new id is appended as it is. Otherwise it takes the place of the first member of its id,
      keeping that one's clients if it brings none, and nobody else changes. */
  lemma {:induction false} UpsertMeans(ms: seq<Member>, m: Member)
    ensures var ns := Upsert(ms, m);
            if NoneWithId(ms, m.id) then ns == ms + [m]
            else
              exists i :: && FirstWithId(ms, m.id, i) && ns == ms[i := m.(clients := ns[i].clients)]
                          && if m.clients == [] then ns[i].clients == ms[i].clients
                             else AllReturn(ms[i].clients, m.clients, ns[i].clients)
  {
    var i := FirstMember(ms, m.id);
    FirstMemberIff(ms, m.id, i);
    if i < |ms| && m.clients != [] {
      MergedReturn(ms[i].clients, m.clients);
    }
  }

  // ---- AddClient and RemoveClient ----

  /** What is left of a member's clients without those the test names, in order. */
  function Without(cs: seq<Client>, gone: Client -> bool): seq<Client> {
    Present(seq(|cs|, j requires 0 <= j < |cs| => if gone(cs[j]) then None else Some(cs[j])))
  }

  lemma {:induction false} WithoutSnoc(cs: seq<Client>, c: Client, gone: Client -> bool)
    ensures Without(cs + [c], gone) == Without(cs, gone) + if gone(c) then [] else [c]
  {
    var ds := cs + [c];
    var xs := seq(|cs|, j requires 0 <= j < |cs| => if gone(cs[j]) then None else Some(cs[j]));
    var ys := seq(|ds|, j requires 0 <= j < |ds| => if gone(ds[j]) then None else Some(ds[j]));
    assert ys[..|cs|] == xs;
  }

  /** Of another member, AddClient takes away the clients that have the key or, if there is one, the address. */
  function Clashes(rec: Client): Client -> bool {
    (c: Client) => c.key == rec.key || (rec.ip4 != NoAddress && c.ip4 == rec.ip4)
  }

  function WithKey(k: Key): Client -> bool {
    (c: Client) => c.key == k
  }

  lemma {:induction false} KeptIs(cs: seq<Client>, rec: Client)
    ensures Kept(cs, rec) == Without(cs, Clashes(rec))
  {
    if cs != [] {
      var n := |cs| - 1;
      KeptIs(cs[..n], rec);
      WithoutSnoc(cs[..n], cs[n], Clashes(rec));
      assert cs == cs[..n] + [cs[n]];
    }
  }

  lemma {:induction false} WithoutKeyIs(cs: seq<Client>, k: Key)
    ensures WithoutKey(cs, k) == Without(cs, WithKey(k))
  {
    if cs != [] {
      var n := |cs| - 1;
      WithoutKeyIs(cs[..n], k);
      WithoutSnoc(cs[..n], cs[n], WithKey(k));
      assert cs == cs[..n] + [cs[n]];
    }
  }

  /** ds is cs with the record appended, or, if its key is there, put in place of the first client of that key
      and refreshed from it. */
  ghost predicate Put(cs: seq<Client>, rec: Client, ds: seq<Client>) {
    if NoneWithKey(cs, rec.key) then ds == cs + [rec]
    else exists j :: && FirstWithKey(cs, rec.key, j) && |ds| == |cs| && ds == cs[j := ds[j]]
                     && Refreshed(rec, cs[j], ds[j])
                     && ds[j].ip6 == if rec.ip6 != NoAddress then rec.ip6 else cs[j].ip6
  }

  lemma {:induction false} PutIs(cs: seq<Client>, rec: Client)
    ensures Put(cs, rec, PutClient(cs, rec))
  {
    var j := FirstClient(cs, rec.key);
    if j < |cs| {
      assert FirstWithKey(cs, rec.key, j);
    }
  }

  /** AddClient refuses a blank key. Otherwise everybody of another id loses the key and the address; the first
      member of that id gets the record, if there is one; nothing else changes. */
  lemma {:induction false} AddClientMeans(ms: seq<Member>, id: string, rec: Client)
    ensures var (ok, ns) := AddClient(ms, id, rec);
            if rec.key == "" then !ok && ns == ms
            else
              && ok == !NoneWithId(ms, id) && |ns| == |ms|
              && forall i :: 0 <= i < |ms| ==> AddedTo(ms, id, rec, i, ns[i])
  {
    if rec.key != "" {
      var st, ns := StripOthers(ms, id, rec), AddClient(ms, id, rec).1;
      var f := FirstMember(st, id);
      FirstMemberIff(st, id, f);
      forall i | 0 <= i < |ms|
        ensures AddedTo(ms, id, rec, i, ns[i])
      {
        KeptIs(ms[i].clients, rec);
        PutIs(ms[i].clients, rec);
      }
    }
  }

  ghost predicate AddedTo(ms: seq<Member>, id: string, rec: Client, i: nat, n: Member)
    requires i < |ms|
  {
    && n == ms[i].(clients := n.clients)
    && if ms[i].id != id then n.clients == Without(ms[i].clients, Clashes(rec))
       else if FirstWithId(ms, id, i) then Put(ms[i].clients, rec, n.clients)
       else n.clients == ms[i].clients
  }

  /** RemoveClient takes every client of that key from the first member of that id, in place, and says
      whether there was one. */
  lemma {:induction false} RemoveClientMeans(ms: seq<Member>, id: string, k: Key)
    ensures var (ok, ns) := RemoveClient(ms, id, k);
            if NoneWithId(ms, id) then !ok && ns == ms
            else
              exists i :: && FirstWithId(ms, id, i) && ok == !NoneWithKey(ms[i].clients, k)
                          && ns == ms[i := ms[i].(clients := Without(ms[i].clients, WithKey(k)))]
  {
    var i := FirstMember(ms, id);
    FirstMemberIff(ms, id, i);
    if i < |ms| {
      WithoutKeyIs(ms[i].clients, k);
      assert FirstWithId(ms, id, i);
    }
  }

  // ---- SetAppDefinitions and RemoveAppByID, in members' grants ----

  /** The app, or its new definition if there is one: the last with its id. */
  ghost predicate Redefined(defs: seq<App>, a: App, b: App) {
    if NoneNamed(defs, a.id) then b == a else Named(defs, a.id, Some(b))
  }

  lemma {:induction false} RedefineMeans(apps: seq<App>, defs: seq<App>)
    ensures |Redefine(apps, defs)| == |apps|
    ensures forall j :: 0 <= j < |apps| ==> Redefined(defs, apps[j], Redefine(apps, defs)[j])
  {
    forall j | 0 <= j < |apps|
      ensures Redefined(defs, apps[j], Redefine(apps, defs)[j])
    {
      LastIsNamed(defs, apps[j].id, LastAppById(defs, apps[j].id));
    }
  }

  function OtherApps(apps: seq<App>, id: string): seq<Option<App>> {
    seq(|apps|, j requires 0 <= j < |apps| => if apps[j].id == id then None else Some(apps[j]))
  }

  lemma {:induction false} WithoutAppMeans(apps: seq<App>, id: string)
    ensures WithoutApp(apps, id) == Present(OtherApps(apps, id))
  {
    if apps != [] {
      var n := |apps| - 1;
      WithoutAppMeans(apps[..n], id);
      assert OtherApps(apps, id)[..n] == OtherApps(apps[..n], id);
    }
  }

  // ---- names ----

  /** Two e-mail addresses are one to the store when they are the same up to blanks around them and case. */
  lemma {:induction false} EmailKeyIs(email: string)
    ensures exists t :: Trimmed(email, t) && Lowered(t, EmailKey(email))
  {
    TrimSpaceIs(email);
    ToLowerIs(TrimSpace(email));
  }
}
