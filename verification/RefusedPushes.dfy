/** What a push that is not applied leaves in the allocator. */
module RefusedPushes {
  import opened Base
  import opened Addresses
  import opened Allocator
  import opened Wire
  import opened Acl
  import opened Signing
  import opened DeviceState
  import opened Addressing
  import opened Startup

  /** The client has nothing to be given: no key, or an address already. */
  predicate Known(a: Alloc, c: Client) {
    c.key == "" || c.key in a.bound
  }

  function FirstUnknown(a: Alloc, cs: seq<Client>): (n: nat)
    ensures n <= |cs| && (n < |cs| ==> !Known(a, cs[n]))
    ensures forall j :: 0 <= j < n ==> Known(a, cs[j])
  {
    if cs == [] || !Known(a, cs[0]) then 0 else 1 + FirstUnknown(a, cs[1..])
  }

  /** No lease of k's to a free address, and no free host. */
  ghost predicate NoAddressFor(a: Alloc, leases: Leases, k: Key) {
    && !(k in leases && leases[k] != NoAddress && InSubnet(a, leases[k]) && leases[k] !in a.used)
    && forall j: Byte :: 2 <= j <= 254 ==> V4(a.net, j) in a.used
  }

  lemma {:induction false} AssignUnknown(a: Alloc, leases: Leases, k: Key)
    requires Valid(a) && Canonical(a) && k != "" && k !in a.bound
    ensures AssignAddress(a, leases, k).1.None? <==> NoAddressFor(a, leases, k)
    ensures AssignAddress(a, leases, k).1.None? ==> AssignAddress(a, leases, k).0 == a
  {
    AllocateLowestFree(a, k);
    if k in leases {
      TryAdoptSafe(a, k, leases[k]);
    }
  }

  /** Assignment walks the clients in order: it passes the known ones, and the first other one decides. */
  lemma {:induction false} AssignWalk(a: Alloc, leases: Leases, cs: seq<Client>)
    requires Valid(a) && Canonical(a)
    ensures var r, m := AssignClients(a, leases, cs), FirstUnknown(a, cs);
            if m == |cs| then r.ok && r.alloc == a
            else if NoAddressFor(a, leases, cs[m].key) then !r.ok && r.alloc == a
            else cs[m].key in r.alloc.bound
  {
    if cs != [] {
      var n := |cs| - 1;
      AssignWalk(a, leases, cs[..n]);
      AssignClientsOk(a, leases, cs[..n]);
      FirstOf(a, cs);
      var r := AssignClients(a, leases, cs[..n]);
      if r.ok {
        AssignAddressOk(r.alloc, leases, cs[n].key);
        if r.alloc == a && !Known(a, cs[n]) {
          AssignUnknown(a, leases, cs[n].key);
        }
      }
    }
  }

  lemma {:induction false} FirstOf(a: Alloc, cs: seq<Client>)
    requires cs != []
    ensures var n := |cs| - 1;
            var m := FirstUnknown(a, cs[..n]);
            FirstUnknown(a, cs) == if m < n then m else if Known(a, cs[n]) then |cs| else n
  {
  }

  // ---- members, flattened ----

  lemma {:induction false} AssignConcat(a: Alloc, leases: Leases, cs: seq<Client>, ds: seq<Client>)
    ensures var r, q := AssignClients(a, leases, cs), AssignClients(a, leases, cs + ds);
            if r.ok then q.ok == AssignClients(r.alloc, leases, ds).ok
                && q.alloc == AssignClients(r.alloc, leases, ds).alloc
            else !q.ok && q.alloc == r.alloc
  {
    if ds == [] {
      assert cs + ds == cs;
    } else {
      var n := |ds| - 1;
      AssignConcat(a, leases, cs, ds[..n]);
      assert (cs + ds)[..|cs + ds| - 1] == cs + ds[..n];
    }
  }

  lemma {:induction false} AssignFlat(a: Alloc, leases: Leases, ms: seq<Member>)
    ensures var r, q := AssignMembers(a, leases, ms), AssignClients(a, leases, Flat(ms));
            r.ok == q.ok && r.alloc == q.alloc
  {
    if ms != [] {
      AssignFlat(a, leases, ms[..|ms| - 1]);
      AssignConcat(a, leases, Flat(ms[..|ms| - 1]), ms[|ms| - 1].clients);
    }
  }

  // ---- the push ----

  /** The push passes every check made before addresses are given out. */
  ghost predicate GetsToAddresses(env: Env, s: State, p: Push, now: Time) {
    && !(p.deviceId != "" && p.deviceId != env.deviceId) && p.generation >= s.generation
    && s.pin.Some? && env.decodeKey(s.pin.value).Some?
    && var owner := env.decodeKey(s.pin.value).value;
       var apps := VerifyApps(env, owner, p.apps);
       apps.Ok? && VerifyMembers(Ctx(env, owner, s.members, apps.value, now), s.log, p.members).ok
  }

  ghost function Checked(env: Env, s: State, p: Push, now: Time): Verified
    requires GetsToAddresses(env, s, p, now)
  {
    var owner := env.decodeKey(s.pin.value).value;
    VerifyMembers(Ctx(env, owner, s.members, VerifyApps(env, owner, p.apps).value, now), s.log, p.members)
  }

  /** The first client without an address, in the order of the push, would be given one. */
  ghost predicate GivesAddress(env: Env, s: State, p: Push, now: Time) {
    GetsToAddresses(env, s, p, now)
    && var v := Checked(env, s, p, now);
       var cs := Flat(v.members);
       var m := FirstUnknown(s.alloc, cs);
       m < |cs| && !NoAddressFor(s.alloc, v.leases, cs[m].key)
  }

  lemma {:induction false} UnappliedAlloc(env: Env, s: State, p: Push, now: Time, finished: Time, addOk: AddOk)
    requires HandlePush(env, s, p, now, finished, addOk).1 != Applied
    ensures HandlePush(env, s, p, now, finished, addOk).0.alloc
            == if GetsToAddresses(env, s, p, now)
               then AssignMembers(s.alloc, Checked(env, s, p, now).leases, Checked(env, s, p, now).members).alloc
               else s.alloc
  {
    if GetsToAddresses(env, s, p, now) {
      ReachedAlloc(env, s, p, now, finished, addOk);
    }
  }

  lemma {:induction false} ReachedAlloc(env: Env, s: State, p: Push, now: Time, finished: Time, addOk: AddOk)
    requires GetsToAddresses(env, s, p, now) && HandlePush(env, s, p, now, finished, addOk).1 != Applied
    ensures HandlePush(env, s, p, now, finished, addOk).0.alloc
            == AssignMembers(s.alloc, Checked(env, s, p, now).leases, Checked(env, s, p, now).members).alloc
  {
    var owner := env.decodeKey(s.pin.value).value;
    var apps := VerifyApps(env, owner, p.apps).value;
    var v := VerifyMembers(Ctx(env, owner, s.members, apps, now), s.log, p.members);
    assert v == Checked(env, s, p, now);
  }

  /** A push that is not applied leaves the allocator as it was if and only if it fails before addresses are
      given out, or every client it lists has one, or none is to be had for the first that has not. */
  lemma {:induction false} RefusedAllocIff(env: Env, s: State, p: Push, now: Time, finished: Time, addOk: AddOk)
    requires Valid(s.alloc) && Canonical(s.alloc) && HandlePush(env, s, p, now, finished, addOk).1 != Applied
    ensures HandlePush(env, s, p, now, finished, addOk).0.alloc == s.alloc <==> !GivesAddress(env, s, p, now)
  {
    UnappliedAlloc(env, s, p, now, finished, addOk);
    if GetsToAddresses(env, s, p, now) {
      var v := Checked(env, s, p, now);
      AssignFlat(s.alloc, v.leases, v.members);
      AssignWalk(s.alloc, v.leases, Flat(v.members));
    }
  }
}
