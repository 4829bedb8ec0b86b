/** The ACL on values: scans over the member list and the edits the store makes to it. */
module Acl {
  import opened Base
  import opened Text
  import opened Addresses
  import opened Allocator
  import opened Wire

  // ---- what a lookup means: a last-match linear scan ----

  predicate HasAddress(c: Client, ip: Address) {
    ip != NoAddress && (c.ip4 == ip || c.ip6 == ip)
  }

  predicate SomeClient(cs: seq<Client>, ip: Address) {
    exists j :: 0 <= j < |cs| && HasAddress(cs[j], ip)
  }

  predicate Holds(m: Member, ip: Address) {
    SomeClient(m.clients, ip)
  }

  predicate HasId(m: Member, id: string) {
    m.id == id
  }

  function EmailKey(email: string): string {
    ToLower(TrimSpace(email))
  }

  predicate HasEmail(m: Member, email: string) {
    email != "" && EmailKey(m.email) == email
  }

  /** Position of the last member that `has` k. */
  function LastMatch<K>(ms: seq<Member>, has: (Member, K) -> bool, k: K): (r: Option<nat>)
    ensures r.None? <==> forall i :: 0 <= i < |ms| ==> !has(ms[i], k)
    ensures r.Some? ==> r.value < |ms| && has(ms[r.value], k) && forall i :: r.value < i < |ms| ==> !has(ms[i], k)
  {
    if ms == [] then None
    else if has(ms[|ms| - 1], k) then Some(|ms| - 1)
    else LastMatch(ms[..|ms| - 1], has, k)
  }

  /** LastMatch is determined by its contract. */
  lemma {:induction false} LastMatchIs<K>(ms: seq<Member>, has: (Member, K) -> bool, k: K, i: nat)
    requires i < |ms| && has(ms[i], k) && forall j :: i < j < |ms| ==> !has(ms[j], k)
    ensures LastMatch(ms, has, k) == Some(i)
  {
  }

  function Get<K, V>(m: map<K, V>, k: K): Option<V> {
    if k in m then Some(m[k]) else None
  }

  /** An index gives, for every key at all, the answer of the scan. */
  ghost predicate Exact<K(!new)>(ms: seq<Member>, idx: map<K, nat>, has: (Member, K) -> bool) {
    forall k :: Get(idx, k) == LastMatch(ms, has, k)
  }

  /** The member a lookup returns, by scan. */
  function Find<K>(ms: seq<Member>, has: (Member, K) -> bool, k: K): Option<Member> {
    var i := LastMatch(ms, has, k);
    if i.None? then None else Some(ms[i.value])
  }

  // ---- authorisation, by scan ----

  function FirstApp(apps: seq<App>, port: bool, slug: string): (r: Option<App>)
    ensures r.Some? ==> r.value in apps && r.value.IsPort() == port && r.value.slug == slug
    ensures r.None? <==> forall i :: 0 <= i < |apps| ==> apps[i].IsPort() != port || apps[i].slug != slug
  {
    if apps == [] then None
    else if apps[0].IsPort() == port && apps[0].slug == slug then Some(apps[0])
    else FirstApp(apps[1..], port, slug)
  }

  function FirstMemberApp(ms: seq<Member>, port: bool, slug: string): Option<App> {
    if ms == [] then None
    else
      var a := FirstApp(ms[0].apps, port, slug);
      if a.Some? then a else FirstMemberApp(ms[1..], port, slug)
  }

  /** The device catalogue first, then apps members were granted before the catalogue existed. */
  function CatalogueApp(ms: seq<Member>, apps: seq<App>, port: bool, slug: string): Option<App> {
    var a := FirstApp(apps, port, slug);
    if a.Some? then a else FirstMemberApp(ms, port, slug)
  }

  function ProxyApp(ms: seq<Member>, apps: seq<App>, ip: Address, slug: string): Option<App> {
    match Find(ms, Holds, ip)
    case None => None
    case Some(m) =>
      if !m.IsActive() then None
      else if m.IsAdmin() then CatalogueApp(ms, apps, false, slug)
      else FirstApp(m.apps, false, slug)
  }

  function PortApp(ms: seq<Member>, ip: Address, slug: string): Option<App> {
    match Find(ms, Holds, ip)
    case None => None
    case Some(m) => if m.IsActive() then FirstApp(m.apps, true, slug) else None
  }

  // ---- raw-port grants ----

  datatype PortGrant = PortGrant(ip4: Address, ip6: Address, tcp: seq<int>, udp: seq<int>)

  /** http and https are hints for clients; to the firewall they are TCP. */
  predicate OpensTcp(a: App, port: int) {
    a.IsPort() && a.port == port && 1 <= port <= 65535 && a.protocol in ["tcp", "http", "https"]
  }

  predicate OpensUdp(a: App, port: int) {
    a.IsPort() && a.port == port && 1 <= port <= 65535 && a.protocol == "udp"
  }

  function TcpPorts(apps: seq<App>): (r: seq<int>)
    ensures forall p :: p in r <==> exists i :: 0 <= i < |apps| && OpensTcp(apps[i], p)
  {
    if apps == [] then []
    else
      var r, a := TcpPorts(apps[..|apps| - 1]), apps[|apps| - 1];
      if OpensTcp(a, a.port) then r + [a.port] else r
  }

  function UdpPorts(apps: seq<App>): (r: seq<int>)
    ensures forall p :: p in r <==> exists i :: 0 <= i < |apps| && OpensUdp(apps[i], p)
  {
    if apps == [] then []
    else
      var r, a := UdpPorts(apps[..|apps| - 1]), apps[|apps| - 1];
      if OpensUdp(a, a.port) then r + [a.port] else r
  }

  /** One grant per client with an IPv4 address. */
  function ClientGrants(cs: seq<Client>, tcp: seq<int>, udp: seq<int>): (r: seq<PortGrant>)
    ensures forall g :: g in r <==>
              g.tcp == tcp && g.udp == udp &&
              exists j :: 0 <= j < |cs| && cs[j].ip4 != NoAddress && cs[j].ip4 == g.ip4 && cs[j].ip6 == g.ip6
  {
    if cs == [] then []
    else
      var r, c := ClientGrants(cs[..|cs| - 1], tcp, udp), cs[|cs| - 1];
      if c.ip4 == NoAddress then r else r + [PortGrant(c.ip4, c.ip6, tcp, udp)]
  }

  function MemberGrants(m: Member): seq<PortGrant> {
    if !m.IsActive() || (TcpPorts(m.apps) == [] && UdpPorts(m.apps) == []) then []
    else ClientGrants(m.clients, TcpPorts(m.apps), UdpPorts(m.apps))
  }

  function Grants(ms: seq<Member>): (r: seq<PortGrant>)
    ensures forall g :: g in r <==> exists i :: 0 <= i < |ms| && g in MemberGrants(ms[i])
  {
    if ms == [] then []
    else Grants(ms[..|ms| - 1]) + MemberGrants(ms[|ms| - 1])
  }

  // ---- client keys ----

  predicate HasKey(m: Member, k: Key) {
    k != "" && exists j :: 0 <= j < |m.clients| && m.clients[j].key == k
  }

  function KeysOf(cs: seq<Client>): set<Key> {
    set j | 0 <= j < |cs| && cs[j].key != "" :: cs[j].key
  }

  function ClientKeys(ms: seq<Member>): set<Key> {
    set i, j | 0 <= i < |ms| && 0 <= j < |ms[i].clients| && ms[i].clients[j].key != "" :: ms[i].clients[j].key
  }

  lemma {:induction false} KeysOfSnoc(cs: seq<Client>, j: nat)
    requires j < |cs|
    ensures KeysOf(cs[..j + 1]) == KeysOf(cs[..j]) + (if cs[j].key == "" then {} else {cs[j].key})
  {
  }

  lemma {:induction false} ClientKeysSnoc(ms: seq<Member>, m: Member)
    ensures ClientKeys(ms + [m]) == ClientKeys(ms) + KeysOf(m.clients)
  {
    var ns := ms + [m];
    forall k | k in ClientKeys(ms)
      ensures k in ClientKeys(ns)
    {
      var i, j :| 0 <= i < |ms| && 0 <= j < |ms[i].clients| && ms[i].clients[j].key == k && k != "";
      assert ns[i] == ms[i];
    }
    forall k | k in KeysOf(m.clients)
      ensures k in ClientKeys(ns)
    {
      assert ns[|ms|] == m;
    }
    forall k | k in ClientKeys(ns)
      ensures k in ClientKeys(ms) + KeysOf(m.clients)
    {
      var i, j :| 0 <= i < |ns| && 0 <= j < |ns[i].clients| && ns[i].clients[j].key == k && k != "";
      if i < |ms| {
        assert ns[i] == ms[i];
      }
    }
  }

  lemma {:induction false} InClientKeys(ms: seq<Member>, k: Key)
    ensures k in ClientKeys(ms) <==> exists i :: 0 <= i < |ms| && HasKey(ms[i], k)
  {
  }

  ghost predicate DistinctIds(ms: seq<Member>) {
    forall i, j :: 0 <= i < j < |ms| ==> ms[i].id != ms[j].id
  }

  ghost predicate NoDuplicates<T>(s: seq<T>) {
    forall i, j :: 0 <= i < j < |s| ==> s[i] != s[j]
  }

  // ---- edits ----

  predicate Stripped(c: Client, rec: Client) {
    c.key == rec.key || (rec.ip4 != NoAddress && c.ip4 == rec.ip4)
  }

  function Kept(cs: seq<Client>, rec: Client): seq<Client> {
    if cs == [] then []
    else
      var r, c := Kept(cs[..|cs| - 1], rec), cs[|cs| - 1];
      if Stripped(c, rec) then r else r + [c]
  }

  /** Drop rec's key and address from every member other than `id`. */
  function StripOthers(ms: seq<Member>, id: string, rec: Client): (r: seq<Member>)
    ensures |r| == |ms|
    ensures forall i :: 0 <= i < |ms| ==>
              r[i] == if ms[i].id == id then ms[i] else ms[i].(clients := Kept(ms[i].clients, rec))
  {
    seq(|ms|, i requires 0 <= i < |ms| =>
      if ms[i].id == id then ms[i] else ms[i].(clients := Kept(ms[i].clients, rec)))
  }

  function FirstMember(ms: seq<Member>, id: string): (r: nat)
    ensures r <= |ms|
    ensures r < |ms| ==> ms[r].id == id
    ensures forall i :: 0 <= i < r ==> ms[i].id != id
  {
    if ms == [] || ms[0].id == id then 0 else 1 + FirstMember(ms[1..], id)
  }

  function FirstClient(cs: seq<Client>, k: Key): (r: nat)
    ensures r <= |cs|
    ensures r < |cs| ==> cs[r].key == k
    ensures forall i :: 0 <= i < r ==> cs[i].key != k
  {
    if cs == [] || cs[0].key == k then 0 else 1 + FirstClient(cs[1..], k)
  }

  function Or<T(==)>(x: T, blank: T, y: T): T {
    if x == blank then y else x
  }

  function FillBlanks(rec: Client, prev: Client): Client {
    Client(rec.key, Or(rec.ip4, NoAddress, prev.ip4), Or(rec.ip6, NoAddress, prev.ip6),
           Or(rec.title, "", prev.title), Or(rec.platform, "", prev.platform),
           Or(rec.endpointType, "", prev.endpointType))
  }

  function PutClient(cs: seq<Client>, rec: Client): seq<Client> {
    var j := FirstClient(cs, rec.key);
    if j == |cs| then cs + [rec] else cs[j := FillBlanks(rec, cs[j])]
  }

  function AddClient(ms: seq<Member>, id: string, rec: Client): (bool, seq<Member>) {
    if rec.key == "" then (false, ms)
    else
      var st := StripOthers(ms, id, rec);
      var i := FirstMember(st, id);
      if i == |st| then (false, st)
      else (true, st[i := st[i].(clients := PutClient(st[i].clients, rec))])
  }

  function WithoutKey(cs: seq<Client>, k: Key): seq<Client> {
    if cs == [] then []
    else
      var r, c := WithoutKey(cs[..|cs| - 1], k), cs[|cs| - 1];
      if c.key == k then r else r + [c]
  }

  function RemoveClient(ms: seq<Member>, id: string, k: Key): (bool, seq<Member>) {
    var i := FirstMember(ms, id);
    if i == |ms| then (false, ms)
    else (FirstClient(ms[i].clients, k) < |ms[i].clients|, ms[i := ms[i].(clients := WithoutKey(ms[i].clients, k))])
  }

  /** UpsertMember fills a returning client's blanks, but not its IPv6 address. */
  function CarryOver(c: Client, prev: Client): Client {
    Client(c.key, Or(c.ip4, NoAddress, prev.ip4), c.ip6,
           Or(c.title, "", prev.title), Or(c.platform, "", prev.platform),
           Or(c.endpointType, "", prev.endpointType))
  }

  function LastClient(cs: seq<Client>, k: Key): (r: Option<Client>)
    ensures r.Some? ==> r.value in cs && r.value.key == k
    ensures r.None? <==> forall i :: 0 <= i < |cs| ==> cs[i].key != k
  {
    if cs == [] then None
    else if cs[|cs| - 1].key == k then Some(cs[|cs| - 1])
    else LastClient(cs[..|cs| - 1], k)
  }

  function MergeClients(prev: seq<Client>, next: seq<Client>): (r: seq<Client>)
    ensures |r| == if |next| == 0 then |prev| else |next|
  {
    if next == [] then prev
    else
      seq(|next|, j requires 0 <= j < |next| =>
        match LastClient(prev, next[j].key) case None => next[j] case Some(p) => CarryOver(next[j], p))
  }

  function Upsert(ms: seq<Member>, m: Member): seq<Member> {
    var i := FirstMember(ms, m.id);
    if i == |ms| then ms + [m] else ms[i := m.(clients := MergeClients(ms[i].clients, m.clients))]
  }

  function Keep(ms: seq<Member>, ok: Member -> bool): seq<Member> {
    if ms == [] then []
    else
      var front := Keep(ms[..|ms| - 1], ok);
      if ok(ms[|ms| - 1]) then front + [ms[|ms| - 1]] else front
  }

  lemma {:induction false} KeepExact(ms: seq<Member>, ok: Member -> bool)
    ensures forall m :: m in Keep(ms, ok) <==> m in ms && ok(m)
  {
    if ms != [] {
      var n := |ms| - 1;
      KeepExact(ms[..n], ok);
      assert ms == ms[..n] + [ms[n]];
    }
  }

  lemma {:induction false} KeepAll(ms: seq<Member>, ok: Member -> bool)
    requires forall m :: m in ms ==> ok(m)
    ensures Keep(ms, ok) == ms
  {
    if ms != [] {
      KeepAll(ms[..|ms| - 1], ok);
      assert ms[|ms| - 1] in ms;
    }
  }

  predicate PinOk(pin: Option<string>, ms: seq<Member>) {
    pin.Some? ==> forall i :: 0 <= i < |ms| && ms[i].IsAdmin() ==>
      ms[i].identityKey != "" && ms[i].identityKey == pin.value
  }

  function LastAppById(apps: seq<App>, id: string): (r: Option<App>)
    ensures r.Some? ==> r.value in apps && r.value.id == id
    ensures r.None? <==> forall i :: 0 <= i < |apps| ==> apps[i].id != id
  {
    if apps == [] then None
    else if apps[|apps| - 1].id == id then Some(apps[|apps| - 1])
    else LastAppById(apps[..|apps| - 1], id)
  }

  /** Replace each app that has a new definition by it. */
  function Redefine(apps: seq<App>, defs: seq<App>): (r: seq<App>)
    ensures |r| == |apps|
  {
    seq(|apps|, j requires 0 <= j < |apps| =>
      match LastAppById(defs, apps[j].id) case None => apps[j] case Some(a) => a)
  }

  function FirstAppById(apps: seq<App>, id: string): (i: nat)
    ensures i <= |apps| && (i < |apps| ==> apps[i].id == id)
    ensures forall j :: 0 <= j < i ==> apps[j].id != id
  {
    if apps == [] then 0
    else
      var i := FirstAppById(apps[..|apps| - 1], id);
      if i < |apps| - 1 || apps[|apps| - 1].id == id then i else |apps|
  }

  /** Overwrite the first app of that id, or append. */
  function PutApp(apps: seq<App>, a: App): seq<App> {
    var i := FirstAppById(apps, a.id);
    if i < |apps| then apps[i := a] else apps + [a]
  }

  function PutApps(apps: seq<App>, defs: seq<App>): seq<App> {
    if defs == [] then apps else PutApp(PutApps(apps, defs[..|defs| - 1]), defs[|defs| - 1])
  }

  function CatalogueById(apps: seq<App>, id: string): Option<App> {
    var i := FirstAppById(apps, id);
    if i < |apps| then Some(apps[i]) else None
  }

  lemma {:induction false} FirstAppByIdIs(apps: seq<App>, id: string, k: nat)
    requires k <= |apps| && (k < |apps| ==> apps[k].id == id) && forall l :: 0 <= l < k ==> apps[l].id != id
    ensures FirstAppById(apps, id) == k
  {
  }

  lemma {:induction false} PutAppFinds(apps: seq<App>, a: App, id: string)
    ensures CatalogueById(PutApp(apps, a), id) == if a.id == id then Some(a) else CatalogueById(apps, id)
  {
    var i, j := FirstAppById(apps, a.id), FirstAppById(apps, id);
    var r := PutApp(apps, a);
    if a.id == id {
      FirstAppByIdIs(r, id, i);
    } else {
      FirstAppByIdIs(r, id, if j == |apps| then |r| else j);
    }
  }

  /** After the upserts the catalogue finds the last new definition of an id, as the mirrored grants
      do, and otherwise what it found before. */
  lemma {:induction false} PutAppsFinds(apps: seq<App>, defs: seq<App>, id: string)
    ensures CatalogueById(PutApps(apps, defs), id)
            == match LastAppById(defs, id) case Some(a) => Some(a) case None => CatalogueById(apps, id)
  {
    if defs != [] {
      PutAppsFinds(apps, defs[..|defs| - 1], id);
      PutAppFinds(PutApps(apps, defs[..|defs| - 1]), defs[|defs| - 1], id);
    }
  }

  function WithoutApp(apps: seq<App>, id: string): (r: seq<App>)
    ensures |r| <= |apps|
  {
    if apps == [] then []
    else
      var r, a := WithoutApp(apps[..|apps| - 1], id), apps[|apps| - 1];
      if a.id == id then r else r + [a]
  }

  lemma {:induction false} InKept(cs: seq<Client>, rec: Client, c: Client)
    ensures c in Kept(cs, rec) <==> c in cs && !Stripped(c, rec)
  {
    if cs != [] {
      assert cs == cs[..|cs| - 1] + [cs[|cs| - 1]];
      InKept(cs[..|cs| - 1], rec, c);
    }
  }

  lemma {:induction false} InWithoutKey(cs: seq<Client>, k: Key, c: Client)
    ensures c in WithoutKey(cs, k) <==> c in cs && c.key != k
  {
    if cs != [] {
      assert cs == cs[..|cs| - 1] + [cs[|cs| - 1]];
      InWithoutKey(cs[..|cs| - 1], k, c);
    }
  }

  lemma {:induction false} WithoutAbsentKey(cs: seq<Client>, k: Key)
    requires forall j :: 0 <= j < |cs| ==> cs[j].key != k
    ensures WithoutKey(cs, k) == cs
  {
    if cs != [] {
      WithoutAbsentKey(cs[..|cs| - 1], k);
    }
  }

  // ---- index facts ----

  /** Edits that leave ids, clients and emails alone leave every lookup position alone, so the
      app edits may skip the rebuild. */
  lemma {:induction false} AppsDoNotMatter(ms: seq<Member>, ns: seq<Member>, ip: Address, s: string)
    requires |ms| == |ns|
    requires forall i :: 0 <= i < |ms| ==>
             ms[i].id == ns[i].id && ms[i].clients == ns[i].clients && ms[i].email == ns[i].email
    ensures LastMatch(ms, Holds, ip) == LastMatch(ns, Holds, ip)
    ensures LastMatch(ms, HasId, s) == LastMatch(ns, HasId, s)
    ensures LastMatch(ms, HasEmail, s) == LastMatch(ns, HasEmail, s)
  {
    if ms != [] {
      AppsDoNotMatter(ms[..|ms| - 1], ns[..|ns| - 1], ip, s);
    }
  }

  /** (i, j) is a client position. */
  predicate Pos(ms: seq<Member>, i: int, j: int) {
    0 <= i < |ms| && 0 <= j < |ms[i].clients|
  }

  predicate Unaddressed(c: Client) {
    c.ip4 == NoAddress && c.ip6 == NoAddress
  }

  // ---- AddClient for a member that does not exist ----

  /** Some client at this address survives the stripping for rec. */
  predicate Retains(cs: seq<Client>, rec: Client, ip: Address) {
    exists j :: 0 <= j < |cs| && HasAddress(cs[j], ip) && !Stripped(cs[j], rec)
  }

  /** For every address, the last member that holds it still does. */
  ghost predicate LastHoldersRetain(ms: seq<Member>, rec: Client) {
    forall ip :: LastMatch(ms, Holds, ip).Some? ==> Retains(ms[LastMatch(ms, Holds, ip).value].clients, rec, ip)
  }

  lemma {:induction false} HoldsStripped(ms: seq<Member>, id: string, rec: Client, i: nat, ip: Address)
    requires FirstMember(ms, id) == |ms| && i < |ms|
    ensures var st := StripOthers(ms, id, rec);
            && |st| == |ms| && (Holds(st[i], ip) <==> Retains(ms[i].clients, rec, ip))
               && (Holds(st[i], ip) ==> Holds(ms[i], ip))
  {
    var st := StripOthers(ms, id, rec);
    if Holds(st[i], ip) {
      var j :| 0 <= j < |st[i].clients| && HasAddress(st[i].clients[j], ip);
      InKept(ms[i].clients, rec, st[i].clients[j]);
    }
    if Retains(ms[i].clients, rec, ip) {
      var j :| 0 <= j < |ms[i].clients| && HasAddress(ms[i].clients[j], ip) && !Stripped(ms[i].clients[j], rec);
      InKept(ms[i].clients, rec, ms[i].clients[j]);
      assert ms[i].clients[j] in st[i].clients;
    }
  }

  lemma {:induction false} SameLastHolder(ms: seq<Member>, id: string, rec: Client, ip: Address)
    requires FirstMember(ms, id) == |ms|
    ensures var r := LastMatch(ms, Holds, ip);
            LastMatch(StripOthers(ms, id, rec), Holds, ip) == r <==> (r.Some? ==> Retains(ms[r.value].clients, rec, ip))
  {
    var st := StripOthers(ms, id, rec);
    forall i | 0 <= i < |ms|
      ensures |st| == |ms| && (Holds(st[i], ip) <==> Retains(ms[i].clients, rec, ip))
              && (Holds(st[i], ip) ==> Holds(ms[i], ip))
    {
      HoldsStripped(ms, id, rec, i, ip);
    }
  }

  /** AddClient for a member that does not exist strips clients everywhere and returns without rebuilding.
      Of the indexes it leaves behind, those by id and by email are still exact, and the one by address
      is if and only if every address's last holder retains it. */
  lemma {:induction false} UnknownMemberStaleness(ms: seq<Member>, id: string, rec: Client,
                                                  byIp: map<Address, nat>, byId: map<string, nat>, byEmail: map<string,
                                                    nat>)
    requires rec.key != "" && FirstMember(ms, id) == |ms|
    requires Exact(ms, byIp, Holds) && Exact(ms, byId, HasId) && Exact(ms, byEmail, HasEmail)
    ensures AddClient(ms, id, rec) == (false, StripOthers(ms, id, rec))
    ensures Exact(StripOthers(ms, id, rec), byId, HasId) && Exact(StripOthers(ms, id, rec), byEmail, HasEmail)
    ensures Exact(StripOthers(ms, id, rec), byIp, Holds) <==> LastHoldersRetain(ms, rec)
  {
    var st := StripOthers(ms, id, rec);
    forall s
      ensures LastMatch(st, HasId, s) == LastMatch(ms, HasId, s)
              && LastMatch(st, HasEmail, s) == LastMatch(ms, HasEmail, s)
    {
      SameNames(ms, st, s);
    }
    forall ip
      ensures var r := LastMatch(ms, Holds, ip);
              LastMatch(st, Holds, ip) == r <==> (r.Some? ==> Retains(ms[r.value].clients, rec, ip))
    {
      SameLastHolder(ms, id, rec, ip);
    }
    if Exact(st, byIp, Holds) {
      forall ip | LastMatch(ms, Holds, ip).Some?
        ensures Retains(ms[LastMatch(ms, Holds, ip).value].clients, rec, ip)
      {
        assert Get(byIp, ip) == LastMatch(ms, Holds, ip) == LastMatch(st, Holds, ip);
      }
    }
  }

  lemma {:induction false} SameNames(ms: seq<Member>, ns: seq<Member>, s: string)
    requires |ms| == |ns| && forall i :: 0 <= i < |ms| ==> ms[i].id == ns[i].id && ms[i].email == ns[i].email
    ensures LastMatch(ms, HasId, s) == LastMatch(ns, HasId, s)
            && LastMatch(ms, HasEmail, s) == LastMatch(ns, HasEmail, s)
  {
    if ms != [] {
      SameNames(ms[..|ms| - 1], ns[..|ns| - 1], s);
    }
  }

  /** The stale case is as simple as can be: one member with one client, and its key for somebody unknown. */
  lemma {:induction false} StalenessExample(ip: Address)
    requires ip != NoAddress
    ensures var c := Client("k", ip, NoAddress, "", "", "");
            var ms := [Member("m", "", "", "", "", "", None, None, [c], [], "")];
            FirstMember(ms, "unknown") == |ms| && !LastHoldersRetain(ms, c)
  {
    var c := Client("k", ip, NoAddress, "", "", "");
    var ms := [Member("m", "", "", "", "", "", None, None, [c], [], "")];
    assert HasAddress(ms[0].clients[0], ip) && Holds(ms[0], ip);
    assert LastMatch(ms, Holds, ip) == Some(0);
    assert !Retains(ms[0].clients, c, ip);
  }
}
