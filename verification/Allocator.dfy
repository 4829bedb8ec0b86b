/** The tunnel IP allocator: a key-to-address map and the set of addresses in use. */
module Allocator {
  import opened Base
  import opened Addresses

  type Key = string

  datatype Alloc = Alloc(net: Net24, server: Address, bound: map<Key, Address>, used: set<Address>)

  function Reserved(net: Net24, server: Address): set<Address> {
    {server, V4(net, 0), V4(net, 255)}
  }

  function Fresh(net: Net24, server: Address): Alloc {
    Alloc(net, server, map[], Reserved(net, server))
  }

  predicate InSubnet(a: Alloc, ip: Address) {
    ip.V4? && ip.net == a.net && ip !in Reserved(a.net, a.server)
  }

  /** Lowest host in i..254 whose address is free. */
  function FirstFree(net: Net24, used: set<Address>, i: int): (r: Option<Byte>)
    requires 2 <= i <= 255
    ensures r.Some? ==> i <= r.value <= 254 && V4(net, r.value) !in used
    ensures r.Some? ==> forall j :: i <= j < r.value ==> V4(net, j) in used
    ensures r.None? ==> forall j: Byte :: i <= j <= 254 ==> V4(net, j) in used
    decreases 255 - i
  {
    if i == 255 then None
    else if V4(net, i) !in used then Some(i)
    else FirstFree(net, used, i + 1)
  }

  function Lookup(a: Alloc, k: Key): Address {
    if k in a.bound then a.bound[k] else NoAddress
  }

  function Allocate(a: Alloc, k: Key): (Alloc, Option<Address>) {
    if k in a.bound then (a, Some(a.bound[k]))
    else
      match FirstFree(a.net, a.used, 2)
      case None => (a, None)
      case Some(h) =>
        var ip := V4(a.net, h);
        (a.(bound := a.bound[k := ip], used := a.used + {ip}), Some(ip))
  }

  function MarkUsed(a: Alloc, k: Key, ip: Address): Alloc {
    if !InSubnet(a, ip) || ip in a.used then a
    else a.(used := a.used + {ip}, bound := if k != "" then a.bound[k := ip] else a.bound)
  }

  function TryAdopt(a: Alloc, k: Key, ip: Address): (Alloc, bool) {
    if k == "" || !InSubnet(a, ip) then (a, false)
    else if k in a.bound then (a, a.bound[k] == ip)
    else if (exists pk :: pk in a.bound && a.bound[pk] == ip && pk != k) || ip in a.used then (a, false)
    else (a.(used := a.used + {ip}, bound := a.bound[k := ip]), true)
  }

  function Release(a: Alloc, k: Key): Alloc {
    if k in a.bound then a.(used := a.used - {a.bound[k]}, bound := a.bound - {k}) else a
  }

  /** Injective, never a reserved address, every bound address marked used and under the prefix. */
  ghost predicate Valid(a: Alloc) {
    && Reserved(a.net, a.server) <= a.used
    && (forall k :: k in a.bound ==> Holdable(a, a.bound[k]))
    && (forall k, l :: k in a.bound && l in a.bound && a.bound[k] == a.bound[l] ==> k == l)
  }

  predicate Holdable(a: Alloc, ip: Address) {
    ip in a.used && ip !in Reserved(a.net, a.server) && UnderPrefix(a.net, ip)
  }

  /** Every bound address is a canonical IPv4 host; an allocation file can break this, no operation can. */
  ghost predicate Canonical(a: Alloc) {
    forall k :: k in a.bound ==> a.bound[k].V4?
  }

  /** b kept all of a's bindings. */
  ghost predicate Extends(a: Alloc, b: Alloc) {
    && a.net == b.net && a.server == b.server
    && a.used <= b.used
    && (forall k :: k in a.bound ==> k in b.bound && b.bound[k] == a.bound[k])
  }

  /** No client has the server's address, the network's or the broadcast address. */
  lemma {:induction false} NeverReserved(a: Alloc, k: Key)
    requires Valid(a) && k in a.bound
    ensures a.bound[k] != a.server && a.bound[k] != V4(a.net, 0) && a.bound[k] != V4(a.net, 255)
  {
    assert Holdable(a, a.bound[k]);
  }

  lemma {:induction false} FreshValid(net: Net24, server: Address)
    ensures Valid(Fresh(net, server)) && Canonical(Fresh(net, server))
  {
  }

  // ---- every operation keeps the invariant ----

  datatype Op =
    | DoAllocate(k: Key)
    | DoMarkUsed(k: Key, ip: Address)
    | DoTryAdopt(k: Key, ip: Address)
    | DoRelease(k: Key)

  function Step(a: Alloc, op: Op): Alloc {
    match op
    case DoAllocate(k) => Allocate(a, k).0
    case DoMarkUsed(k, ip) => MarkUsed(a, k, ip)
    case DoTryAdopt(k, ip) => TryAdopt(a, k, ip).0
    case DoRelease(k) => Release(a, k)
  }

  function Run(a: Alloc, ops: seq<Op>): Alloc {
    if ops == [] then a else Step(Run(a, ops[..|ops| - 1]), ops[|ops| - 1])
  }

  lemma {:induction false} StepKeeps(a: Alloc, op: Op)
    requires Valid(a)
    ensures Valid(Step(a, op))
    ensures Canonical(a) ==> Canonical(Step(a, op))
    ensures Step(a, op).net == a.net && Step(a, op).server == a.server
  {
    var b := Step(a, op);
    forall k | k in b.bound
      ensures Holdable(b, b.bound[k])
    {
      if k in a.bound && b.bound[k] == a.bound[k] {
        assert Holdable(a, a.bound[k]);
      }
    }
    forall k, l | k in b.bound && l in b.bound && b.bound[k] == b.bound[l]
      ensures k == l
    {
      assert k in a.bound ==> Holdable(a, a.bound[k]);
      assert l in a.bound ==> Holdable(a, a.bound[l]);
    }
  }

  /** Over any operation sequence the map stays injective, off the reserved addresses and inside
      the used set. */
  lemma {:induction false} RunValid(a: Alloc, ops: seq<Op>)
    requires Valid(a)
    ensures Valid(Run(a, ops))
    ensures Canonical(a) ==> Canonical(Run(a, ops))
    ensures Run(a, ops).net == a.net && Run(a, ops).server == a.server
  {
    if ops != [] {
      RunValid(a, ops[..|ops| - 1]);
      StepKeeps(Run(a, ops[..|ops| - 1]), ops[|ops| - 1]);
    }
  }

  /** Allocate gives a known key its address back, otherwise the lowest free host; it fails exactly
      when the key is unknown and hosts 2..254 are all used. */
  lemma {:induction false} AllocateLowestFree(a: Alloc, k: Key)
    requires Valid(a)
    ensures Allocate(a, k).1.None? <==> k !in a.bound && forall j: Byte :: 2 <= j <= 254 ==> V4(a.net, j) in a.used
    ensures var (b, r) := Allocate(a, k); r.Some? ==> k in b.bound && b.bound[k] == r.value
    ensures var (b, r) := Allocate(a, k);
            r.Some? && k !in a.bound ==>
              && InSubnet(a, r.value) && r.value !in a.used && 2 <= r.value.host <= 254
              && forall j: Byte :: 2 <= j < r.value.host ==> V4(a.net, j) in a.used
    ensures Extends(a, Allocate(a, k).0)
  {
  }

  /** A lease never moves a live binding and never takes an address somebody else holds; it is
      refused exactly when the key is empty, the address is not ours to give, the key already has
      another address, or the address is taken. */
  lemma {:induction false} TryAdoptSafe(a: Alloc, k: Key, ip: Address)
    requires Valid(a)
    ensures Extends(a, TryAdopt(a, k, ip).0)
    ensures TryAdopt(a, k, ip).1 ==> k in TryAdopt(a, k, ip).0.bound && TryAdopt(a, k, ip).0.bound[k] == ip
    ensures TryAdopt(a, k, ip).1 <==>
            k != "" && InSubnet(a, ip) && (if k in a.bound then a.bound[k] == ip else ip !in a.used)
  {
  }

  /** A binding live before and after a step has moved only if the step was MarkUsed for that key
      onto a free in-subnet address; the old address then stays marked used with no owner. */
  lemma {:induction false} OnlyMarkUsedMoves(a: Alloc, op: Op, k: Key)
    requires Valid(a) && k in a.bound && k in Step(a, op).bound
    ensures Step(a, op).bound[k] != a.bound[k] <==>
            op.DoMarkUsed? && op.k == k && k != "" && InSubnet(a, op.ip) && op.ip !in a.used
    ensures Step(a, op).bound[k] != a.bound[k] ==>
            a.bound[k] in Step(a, op).used && forall l :: l in Step(a, op).bound ==> Step(a, op).bound[l] != a.bound[k]
  {
  }

  /** Releasing a key frees exactly its own address for reuse. */
  lemma {:induction false} ReleaseExact(a: Alloc, k: Key)
    requires Valid(a) && k in a.bound
    ensures Release(a, k).bound == a.bound - {k}
    ensures Release(a, k).used == a.used - {a.bound[k]}
    ensures forall l :: l in Release(a, k).bound ==> Release(a, k).bound[l] in Release(a, k).used
    ensures forall l :: l !in Release(a, k).bound && InSubnet(a, a.bound[k]) && l != "" ==>
            TryAdopt(Release(a, k), l, a.bound[k]).1
  {
  }

  /** Release every key of a set. */
  function ReleaseAll(a: Alloc, keys: set<Key>): Alloc {
    a.(bound := a.bound - keys, used := a.used - (set k | k in keys && k in a.bound :: a.bound[k]))
  }

  lemma {:induction false} ReleaseAllOne(a: Alloc, keys: set<Key>, k: Key)
    requires Valid(a)
    ensures Release(ReleaseAll(a, keys), k) == ReleaseAll(a, keys + {k})
  {
    var b := ReleaseAll(a, keys);
    var c := ReleaseAll(a, keys + {k});
    assert b.bound - {k} == a.bound - (keys + {k});
    if k in b.bound {
      assert b.used - {a.bound[k]} == c.used;
    } else {
      assert b.bound == c.bound;
      assert b.used == c.used;
    }
  }

  lemma {:induction false} ReleaseNone(a: Alloc)
    ensures ReleaseAll(a, {}) == a
  {
  }

  lemma {:induction false} ReleaseAllValid(a: Alloc, keys: set<Key>)
    requires Valid(a)
    ensures Valid(ReleaseAll(a, keys))
    ensures Canonical(a) ==> Canonical(ReleaseAll(a, keys))
  {
  }

  // ---- persistence ----

  /** What Load may make of a file on a fresh allocator. The file is a JSON object decoded into a Go
      map, so when two keys claim one address the iteration order picks the winner. */
  ghost predicate Loaded(net: Net24, server: Address, file: map<Key, Address>, a: Alloc) {
    && a.net == net && a.server == server
    && Valid(a)
    && (forall k :: k in a.bound ==> k in file && file[k] == a.bound[k] && Loadable(net, server, file[k]))
    && (forall k :: k in file && Loadable(net, server, file[k]) ==> file[k] in a.bound.Values)
    && a.used == Reserved(net, server) + a.bound.Values
  }

  predicate Loadable(net: Net24, server: Address, ip: Address) {
    UnderPrefix(net, ip) && ip !in Reserved(net, server)
  }

  /** Save then Load on the same subnet and server restores the map. */
  lemma {:induction false} SaveLoadSame(a: Alloc, b: Alloc)
    requires Valid(a) && Loaded(a.net, a.server, a.bound, b)
    ensures b.bound == a.bound
  {
  }

  /** On another subnet nothing survives. */
  lemma {:induction false} SaveLoadOther(a: Alloc, net: Net24, server: Address, b: Alloc)
    requires Valid(a) && net != a.net && Loaded(net, server, a.bound, b)
    ensures b == Fresh(net, server)
  {
  }

  lemma {:induction false} LoadOneKeeps(a: Alloc, b: Alloc, k: Key, v: Address)
    requires Valid(a) && k !in a.bound && UnderPrefix(a.net, v) && v !in a.used
    requires b == a.(bound := a.bound[k := v], used := a.used + {v})
    ensures Valid(b)
    ensures b.bound.Values == a.bound.Values + {v}
  {
    forall l | l in b.bound
      ensures Holdable(b, b.bound[l])
    {
      if l != k {
        assert Holdable(a, a.bound[l]);
      }
    }
    forall l, m | l in b.bound && m in b.bound && b.bound[l] == b.bound[m]
      ensures l == m
    {
      assert l != k ==> Holdable(a, a.bound[l]);
      assert m != k ==> Holdable(a, a.bound[m]);
    }
    assert forall x :: x in a.bound.Values ==> x in b.bound.Values by {
      forall x | x in a.bound.Values
        ensures x in b.bound.Values
      {
        var l :| l in a.bound && a.bound[l] == x;
        assert b.bound[l] == x;
      }
    }
    assert b.bound[k] == v;
  }
}
