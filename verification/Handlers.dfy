/** The handlers as they run: loops over the push, calls into the store, the allocator and the peer
    table, each proved to compute the step of the state machine. */
module TunnelHandlers {
  import opened Base
  import opened Addresses
  import opened Allocator
  import opened IPAllocation
  import opened Wire
  import opened Acl
  import opened AclStore
  import opened Signing
  import opened Admission
  import opened DeviceState
  import opened Provisioning
  import R = AgentRuns
  import T = Text
  import L = Liveness
  import N = Nonces
  import Ad = Addressing
  import Lr = LeaseRecovery
  import An = Announcements

  // ---- pure loops of the push ----

  method VerifyAllApps(env: Env, owner: string, das: seq<Option<Envelope<AppPayload>>>) returns (r: Result<seq<App>>)
    ensures r == VerifyApps(env, owner, das)
  {
    var apps := [];
    for i := 0 to |das|
      invariant VerifyApps(env, owner, das[..i]) == Ok(apps)
    {
      assert das[..i + 1][..i] == das[..i];
      var one := VerifyApp(env, owner, das[i]);
      if one.Rejected? {
        AppsStick(env, owner, das, i + 1);
        return Rejected;
      }
      apps := apps + one.value;
    }
    assert das[..|das|] == das;
    return Ok(apps);
  }

  lemma {:induction false} AppsStick(env: Env, owner: string, das: seq<Option<Envelope<AppPayload>>>, i: nat)
    requires i <= |das| && VerifyApps(env, owner, das[..i]).Rejected?
    ensures VerifyApps(env, owner, das).Rejected?
  {
    if i < |das| {
      assert das[..|das| - 1][..i] == das[..i];
      AppsStick(env, owner, das[..|das| - 1], i);
    } else {
      assert das[..i] == das;
    }
  }

  method PickAllApps(apps: seq<App>, ids: seq<string>) returns (r: seq<App>)
    ensures r == PickApps(apps, ids)
  {
    r := [];
    for i := 0 to |ids|
      invariant r == PickApps(apps, ids[..i])
    {
      assert ids[..i + 1][..i] == ids[..i];
      var a := LastAppById(apps, ids[i]);
      if a.Some? {
        r := r + [a.value];
      } else {
        assert r + [] == r;
      }
    }
    assert ids[..|ids|] == ids;
  }

  method VerifyAllClients(env: Env, log: Log, memberKey: string, id: string,
                          dcs: seq<DsClient>) returns (r: Result<(seq<Client>, Leases)>)
    ensures r == VerifyClients(env, log, memberKey, id, dcs)
  {
    var cs: seq<Client>, ls: Leases := [], map[];
    for i := 0 to |dcs|
      invariant VerifyClients(env, log, memberKey, id, dcs[..i]) == Ok((cs, ls))
    {
      assert dcs[..i + 1][..i] == dcs[..i];
      var one := VerifyClient(env, log, memberKey, id, dcs[i]);
      if one.Rejected? {
        ClientsStick(env, log, memberKey, id, dcs, i + 1);
        return Rejected;
      }
      cs, ls := cs + one.value.0, ls + one.value.1;
    }
    assert dcs[..|dcs|] == dcs;
    return Ok((cs, ls));
  }

  lemma {:induction false} ClientsStick(env: Env, log: Log, memberKey: string, id: string, dcs: seq<DsClient>, i: nat)
    requires i <= |dcs| && VerifyClients(env, log, memberKey, id, dcs[..i]).Rejected?
    ensures VerifyClients(env, log, memberKey, id, dcs).Rejected?
  {
    if i < |dcs| {
      assert dcs[..|dcs| - 1][..i] == dcs[..i];
      ClientsStick(env, log, memberKey, id, dcs[..|dcs| - 1], i);
    } else {
      assert dcs[..i] == dcs;
    }
  }

  lemma {:induction false} MembersStick(ctx: Ctx, log: Log, dms: seq<DsMember>, i: nat)
    requires i <= |dms| && !VerifyMembers(ctx, log, dms[..i]).ok
    ensures VerifyMembers(ctx, log, dms) == VerifyMembers(ctx, log, dms[..i])
  {
    if i < |dms| {
      assert dms[..|dms| - 1][..i] == dms[..i];
      MembersStick(ctx, log, dms[..|dms| - 1], i);
    } else {
      assert dms[..i] == dms;
    }
  }

  lemma {:induction false} AssignStick(a: Alloc, leases: Leases, ms: seq<Member>, i: nat)
    requires i <= |ms| && !AssignMembers(a, leases, ms[..i]).ok
    ensures AssignMembers(a, leases, ms) == AssignMembers(a, leases, ms[..i])
  {
    if i < |ms| {
      assert ms[..|ms| - 1][..i] == ms[..i];
      AssignStick(a, leases, ms[..|ms| - 1], i);
    } else {
      assert ms[..i] == ms;
    }
  }

  lemma {:induction false} AssignClientsStick(a: Alloc, leases: Leases, cs: seq<Client>, i: nat)
    requires i <= |cs| && !AssignClients(a, leases, cs[..i]).ok
    ensures AssignClients(a, leases, cs) == AssignClients(a, leases, cs[..i])
  {
    if i < |cs| {
      assert cs[..|cs| - 1][..i] == cs[..i];
      AssignClientsStick(a, leases, cs[..|cs| - 1], i);
    } else {
      assert cs[..i] == cs;
    }
  }

  method DeriveAll(server6: Address, ms: seq<Member>) returns (r: seq<Member>)
    ensures r == DeriveV6(server6, ms)
  {
    r := ms;
    for i := 0 to |ms|
      invariant |r| == |ms|
      invariant forall k :: 0 <= k < i ==> r[k] == DeriveV6(server6, ms)[k]
      invariant forall k :: i <= k < |ms| ==> r[k] == ms[k]
    {
      var cs := ms[i].clients;
      for j := 0 to |cs|
        invariant |cs| == |ms[i].clients|
        invariant forall k :: 0 <= k < j ==> cs[k] == DeriveClient(server6, ms[i].clients[k])
        invariant forall k :: j <= k < |cs| ==> cs[k] == ms[i].clients[k]
      {
        if cs[j].ip4 != NoAddress {
          cs := cs[j := cs[j].(ip6 := TunnelIPv6(server6, cs[j].ip4))];
        }
      }
      assert cs == DeriveClients(server6, ms[i].clients);
      r := r[i := r[i].(clients := cs)];
    }
  }

  class Handlers {
    const env: Env
    const store: Store
    const allocator: IPAllocator
    var peers: Peers
    var grants: seq<PortGrant>
    var log: Log
    var live: L.Live
    var nonces: N.Pending

    /** Indexes exact, allocator map injective: what every handler relies on and leaves behind. */
    ghost predicate Ready()
      reads this, store, allocator
    {
      store.Valid() && Valid(allocator.View()) && Canonical(allocator.View())
    }

    function View(): State
      reads this, store, allocator
    {
      State(store.members, store.apps, store.pin, store.generation, store.lastAppliedAt, store.saved,
            allocator.View(), peers, grants, log, live, nonces)
    }

    /** `signed` is what the agent's key has signed in earlier lives. */
    constructor (env: Env, store: Store, allocator: IPAllocator, signed: Log, boot: Time)
      requires store.Valid() && Valid(allocator.View()) && Canonical(allocator.View())
      ensures Ready() && this.env == env && this.store == store && this.allocator == allocator
      ensures View() == State(store.members, store.apps, store.pin, store.generation, store.lastAppliedAt, store.saved,
                              allocator.View(), map[], [], signed, L.Boot(boot), map[])
    {
      this.env, this.store, this.allocator := env, store, allocator;
      peers, grants, log, live, nonces := map[], [], signed, L.Boot(boot), map[];
    }

    // ---- device:state ----

    method AdmitMember(ctx: Ctx, dm: DsMember) returns (r: Result<(Option<Certificate>, seq<string>)>)
      requires Ready() && ctx.env == env && ctx.known == store.members
      modifies this`log
      ensures (log, r) == Admit(ctx, old(log), dm)
    {
      if dm.IsAdmin() {
        return Ok((None, []));
      }
      if dm.admittance.Some? {
        return Reuse(ctx, log, dm, dm.admittance.value);
      }
      var existing := store.LookupByMemberID(dm.id);
      if existing.Some? && existing.value.admittance.Some? {
        return Reuse(ctx, log, dm, existing.value.admittance.value);
      }
      if dm.join.None? {
        return Rejected;
      }
      var inv := VerifyJoin(env, dm.join.value, dm.identityKey, ctx.owner, ctx.now);
      if inv.Rejected? {
        return Rejected;
      }
      var cert := Mint(env, dm.id, dm.identityKey, dm.join.value.raw.value, inv.value.allowedAppIds, ctx.now);
      if cert.Rejected? {
        return Rejected;
      }
      log := log + {CertBytes(cert.value)};
      return Ok((Some(cert.value), cert.value.initialApps));
    }

    method VerifyOne(ctx: Ctx, dm: DsMember) returns (r: Result<(Member, Leases)>)
      requires Ready() && ctx.env == env && ctx.known == store.members
      modifies this`log
      ensures (log, r) == VerifyMember(ctx, old(log), dm)
    {
      var adm := AdmitMember(ctx, dm);
      r := Finish(ctx, log, dm, adm);
    }

    static method Finish(ctx: Ctx, log: Log, dm: DsMember,
                         adm: Result<(Option<Certificate>, seq<string>)>) returns (r: Result<(Member, Leases)>)
      ensures r == FinishMember(ctx, log, dm, adm)
    {
      if adm.Rejected? {
        return Rejected;
      }
      var memberKey := ctx.env.decodeKey(dm.identityKey);
      if memberKey.None? {
        return Rejected;
      }
      var status := VerifyStatus(ctx, dm);
      if status.Rejected? {
        return Rejected;
      }
      var apps := Permissions(ctx, dm, adm.value.1);
      if apps.Rejected? {
        return Rejected;
      }
      var clients := VerifyAllClients(ctx.env, log, memberKey.value, dm.id, dm.clients);
      if clients.Rejected? {
        return Rejected;
      }
      return Ok((Member(dm.id, dm.userId, dm.name, dm.email, dm.role, dm.identityKey, None, adm.value.0,
                        clients.value.0, apps.value, status.value), clients.value.1));
    }

    static method Permissions(ctx: Ctx, dm: DsMember, initialApps: seq<string>) returns (r: Result<seq<App>>)
      ensures r == VerifyPermissions(ctx, dm, initialApps)
    {
      if dm.permissions.Some? {
        if dm.permissions.value.payload.None? {
          return Rejected;
        }
        var pp := dm.permissions.value.payload.value;
        if pp.memberId != dm.id {
          return Rejected;
        }
        var expected := "member:permissions-" + ctx.env.deviceId + "-" + pp.memberId + "-" + T.Decimal(pp.ts);
        if !Authorized(ctx.env, ctx.owner, dm.permissions.value, pp.intent, expected) {
          return Rejected;
        }
        var picked := PickAllApps(ctx.apps, pp.allowedAppIds);
        return Ok(picked);
      } else if dm.IsAdmin() {
        return Ok(ctx.apps);
      }
      var picked := PickAllApps(ctx.apps, initialApps);
      return Ok(picked);
    }

    method VerifyAll(ctx: Ctx, dms: seq<DsMember>)
      returns (ok: bool, ms: seq<Member>, leases: Leases, certs: seq<Certificate>)
      requires Ready() && ctx.env == env && ctx.known == store.members
      modifies this`log
      ensures Verified(ok, ms, leases, log) == VerifyMembers(ctx, old(log), dms)
      ensures ok ==> |ms| == |dms| && certs == Announced(dms, ms)
    {
      ms, leases, certs := [], map[], [];
      for i := 0 to |dms|
        invariant |ms| == i && certs == Announced(dms[..i], ms)
        invariant VerifyMembers(ctx, old(log), dms[..i]) == Verified(true, ms, leases, log)
      {
        assert dms[..i + 1][..i] == dms[..i];
        var one := VerifyOne(ctx, dms[i]);
        if one.Rejected? {
          MembersStick(ctx, old(log), dms, i + 1);
          return false, ms, leases, certs;
        }
        assert (ms + [one.value.0])[..i] == ms;
        ms, leases := ms + [one.value.0], leases + one.value.1;
        if !dms[i].IsAdmin() && dms[i].admittance.None? && ms[i].admittance.Some? {
          certs := certs + [ms[i].admittance.value];
        }
      }
      assert dms[..|dms|] == dms;
      ok := true;
    }

    method Assign(leases: Leases, k: Key) returns (ip: Option<Address>)
      modifies allocator
      ensures (allocator.View(), ip) == AssignAddress(old(allocator.View()), leases, k)
    {
      if k == "" {
        return Some(NoAddress);
      }
      var known := Lookup(allocator.View(), k);
      if known != NoAddress {
        return Some(known);
      }
      if k in leases && leases[k] != NoAddress {
        var adopted := allocator.TryAdopt(k, leases[k]);
        if adopted {
          return Some(leases[k]);
        }
        NotAdopted(old(allocator.View()), k, leases[k]);
      }
      ip := allocator.Allocate(k);
    }

    method AssignAllClients(leases: Leases, cs: seq<Client>) returns (ok: bool, ds: seq<Client>)
      modifies allocator
      ensures Assigned(ok, allocator.View(), ds) == AssignClients(old(allocator.View()), leases, cs)
    {
      ds := [];
      for j := 0 to |cs|
        invariant AssignClients(old(allocator.View()), leases, cs[..j]) == Assigned(true, allocator.View(), ds)
      {
        assert cs[..j + 1][..j] == cs[..j];
        var ip := Assign(leases, cs[j].key);
        if ip.None? {
          AssignClientsStick(old(allocator.View()), leases, cs, j + 1);
          return false, ds;
        }
        ds := ds + [if cs[j].key == "" then cs[j] else cs[j].(ip4 := ip.value)];
      }
      assert cs[..|cs|] == cs;
      ok := true;
    }

    method AssignAll(leases: Leases, ms: seq<Member>) returns (ok: bool, ns: seq<Member>)
      requires Valid(allocator.View()) && Canonical(allocator.View())
      modifies allocator
      ensures Valid(allocator.View()) && Canonical(allocator.View())
      ensures Assigned(ok, allocator.View(), ns) == AssignMembers(old(allocator.View()), leases, ms)
    {
      Ad.AssignMembersOk(allocator.View(), leases, ms);
      ns := [];
      for i := 0 to |ms|
        invariant AssignMembers(old(allocator.View()), leases, ms[..i]) == Assigned(true, allocator.View(), ns)
      {
        assert ms[..i + 1][..i] == ms[..i];
        var one, ds := AssignAllClients(leases, ms[i].clients);
        if !one {
          AssignStick(old(allocator.View()), leases, ms, i + 1);
          return false, ns;
        }
        ns := ns + [ms[i].(clients := ds)];
      }
      assert ms[..|ms|] == ms;
      ok := true;
    }

    /** Tear down every disappeared client: its peer and its address. */
    method DropClients(keys: seq<Key>, ghost removed: set<Key>)
      requires Valid(allocator.View()) && removed == (set k | k in keys)
      modifies this`peers, allocator
      ensures peers == old(peers) - removed
      ensures allocator.View() == ReleaseAll(old(allocator.View()), removed)
    {
      ghost var before := allocator.View();
      ghost var dropped: set<Key> := {};
      ReleaseNone(before);
      assert old(peers) - {} == old(peers);
      for n := 0 to |keys|
        invariant dropped == (set k | k in keys[..n])
        invariant peers == old(peers) - dropped
        invariant allocator.View() == ReleaseAll(before, dropped)
      {
        assert keys[..n + 1] == keys[..n] + [keys[n]];
        peers := peers - {keys[n]};
        allocator.Release(keys[n]);
        ReleaseAllOne(before, dropped, keys[n]);
        assert old(peers) - dropped - {keys[n]} == old(peers) - (dropped + {keys[n]});
        dropped := dropped + {keys[n]};
      }
      assert keys[..|keys|] == keys;
    }

    method InstallAllClients(cs: seq<Client>, i: nat, addOk: AddOk)
      modifies this`peers
      ensures peers == InstallClients(old(peers), cs, i, addOk)
    {
      for j := 0 to |cs|
        invariant peers == InstallClients(old(peers), cs[..j], i, addOk)
      {
        assert cs[..j + 1][..j] == cs[..j];
        if cs[j].key == "" || cs[j].ip4 == NoAddress {
          continue;
        }
        if addOk(i, j) {
          peers := peers[cs[j].key := cs[j].ip4];
        }
      }
      assert cs[..|cs|] == cs;
    }

    method RemoveAllClients(cs: seq<Client>)
      modifies this`peers
      ensures peers == old(peers) - KeysOf(cs)
    {
      assert old(peers) - KeysOf([]) == old(peers);
      for j := 0 to |cs|
        invariant peers == old(peers) - KeysOf(cs[..j])
      {
        KeysOfSnoc(cs, j);
        if cs[j].key != "" {
          peers := peers - {cs[j].key};
        }
      }
      assert cs[..|cs|] == cs;
    }

    method InstallAll(ms: seq<Member>, addOk: AddOk)
      modifies this`peers
      ensures peers == InstallMembers(old(peers), ms, addOk)
    {
      for i := 0 to |ms|
        invariant peers == InstallMembers(old(peers), ms[..i], addOk)
      {
        assert ms[..i + 1][..i] == ms[..i];
        if ms[i].status == "suspended" {
          RemoveAllClients(ms[i].clients);
        } else {
          InstallAllClients(ms[i].clients, i, addOk);
        }
      }
      assert ms[..|ms|] == ms;
    }

    method HandleDeviceState(p: Push, now: Time, finished: Time, addOk: AddOk)
      returns (verdict: Verdict, sent: seq<Certificate>)
      requires Ready()
      modifies this, store, allocator
      ensures Ready()
      ensures (View(), verdict) == HandlePush(env, old(View()), p, now, finished, addOk)
      ensures verdict != Applied ==> sent == []
      ensures verdict == Applied ==> |store.members| == |p.members| && sent == Announced(p.members, store.members)
    {
      sent := [];
      if p.deviceId != "" && p.deviceId != env.deviceId {
        return Refused, sent;
      }
      if p.generation < store.generation {
        return Ignored, sent;
      }
      if store.pin.None? || env.decodeKey(store.pin.value).None? {
        return Refused, sent;
      }
      var owner := env.decodeKey(store.pin.value).value;
      var apps := VerifyAllApps(env, owner, p.apps);
      if apps.Rejected? {
        return Refused, sent;
      }
      var verified, ms, leases, certs := VerifyAll(Ctx(env, owner, store.members, apps.value, now), p.members);
      if !verified {
        return Refused, sent;
      }
      var addressed, sited := AssignAll(leases, ms);
      if !addressed {
        return Refused, sent;
      }
      sited := DeriveAll(env.server6, sited);
      An.SitedAnnounce(env.server6, old(allocator.View()), leases, p.members, ms);
      var accepted := Accept(sited, apps.value, p.generation, now, finished, addOk);
      if !accepted {
        return Refused, sent;
      }
      return Applied, certs;
    }

    /** Pin check, swap, and everything that follows from it. */
    method Accept(ms: seq<Member>, apps: seq<App>, generation: int, now: Time, finished: Time,
                  addOk: AddOk) returns (ok: bool)
      requires Ready()
      modifies this, store, allocator
      ensures Ready()
      ensures ok == PinOk(old(store.pin), ms)
      ensures View() == if ok then Commit(old(View()), ms, apps, generation, now, finished, addOk) else old(View())
    {
      ok := Swap(ms, apps);
      if !ok {
        return;
      }
      InstallAll(ms, addOk);
      Settle(generation, now, finished);
    }

    /** Firewall grants, generation, file and liveness after a push. */
    method Settle(generation: int, now: Time, finished: Time)
      requires Ready()
      modifies this`grants, this`live, store`generation, store`lastAppliedAt, store`saved
      ensures Ready()
      ensures View() == old(View()).(grants := Grants(store.members), generation := generation, appliedAt := now,
                                     saved := store.members, live := L.Mark(old(live), finished, true))
    {
      grants := store.PortGrants();
      store.SetAppliedGeneration(generation, now);
      store.Save();
      live := L.Mark(live, finished, true);
    }

    /** Replace the ACL and tear down the clients that disappeared. */
    method Swap(ms: seq<Member>, apps: seq<App>) returns (ok: bool)
      requires Ready()
      modifies this`peers, store, allocator
      ensures Ready()
      ensures ok == PinOk(old(store.pin), ms)
      ensures !ok ==> View() == old(View())
      ensures ok ==>
              var removed := ClientKeys(old(store.members)) - ClientKeys(ms);
              View() == old(View()).(members := ms, apps := apps, peers := old(peers) - removed,
                                     alloc := ReleaseAll(old(allocator.View()), removed))
    {
      ghost var removed := ClientKeys(store.members) - ClientKeys(ms);
      var removedMembers, removedKeys, removedApps, reconciled := store.Reconcile(ms, apps);
      if !reconciled {
        return false;
      }
      ReleaseAllValid(allocator.View(), removed);
      DropClients(removedKeys, removed);
      return true;
    }

    // ---- wg:challenge and wg:provision ----

    method VerifyCommand(memberId: string, cmd: Command, expected: string, now: Time) returns (ok: bool)
      requires Ready()
      ensures ok == FromMember(env, store.members, memberId, cmd, expected, now)
    {
      if cmd.intent != expected {
        return false;
      }
      var skew := now / SECOND - cmd.ts;
      if skew < 0 {
        skew := -skew;
      }
      if skew > COMMAND_TIMESTAMP_SKEW || cmd.signerId != memberId || cmd.signerId == "" || cmd.signature == "" {
        return false;
      }
      var m := store.LookupByMemberID(cmd.signerId);
      if m.None? || env.decodeKey(m.value.identityKey).None? || cmd.canon.None? {
        return false;
      }
      return env.verify(env.decodeKey(m.value.identityKey).value, cmd.canon.value, cmd.signature);
    }

    method Challenge(req: ChallengeReq, nonce: string, now: Time) returns (r: Option<string>)
      requires Ready()
      modifies this`nonces
      ensures (View(), r) == HandleChallenge(env, old(View()), req, nonce, now)
    {
      var ok := VerifyCommand(req.Id(), req.cmd, "wg:challenge-" + req.Id() + "-" + T.Decimal(req.cmd.ts), now);
      if !ok {
        return None;
      }
      nonces := nonces[req.corr := N.Entry(nonce, req.Id(), req.clientKey, now)];
      return Some(nonce);
    }

    method ProvisionClient(req: ProvisionReq, now: Time, addOk: bool) returns (r: Option<Response>)
      requires Ready()
      modifies this, store, allocator
      ensures Ready()
      ensures (View(), r) == HandleProvision(env, old(View()), req, now, addOk)
    {
      if env.tunnelHost == "" {
        return None;
      }
      var key := req.NonceKey();
      if key !in nonces {
        return None;
      }
      var e := nonces[key];
      nonces := nonces - {key};
      if now - e.createdAt > N.SHORT_LIVED_TTL {
        return None;
      }
      if req.nonce != e.nonce {
        return None;
      }
      var expected := "wg:provision-" + e.memberId + "-" + req.clientId + "-" + req.nonce + "-" + T.Decimal(req.cmd.ts);
      var ok := VerifyCommand(e.memberId, req.cmd, expected, now);
      if !ok {
        return None;
      }
      R.ListedSomewhere(store.members, e.memberId);
      r := InstallClient(e.memberId, RequestedKey(req, e), e.nonce, addOk);
    }

    method InstallClient(id: string, k: Key, nonce: string, addOk: bool) returns (r: Option<Response>)
      requires Ready() && FirstMember(store.members, id) < |store.members|
      modifies this`peers, this`log, store, allocator
      ensures Ready()
      ensures (View(), r) == Provision(env, old(View()), id, k, nonce, addOk)
    {
      var ip := InstallOrUndo(id, k, addOk);
      if ip.None? {
        return None;
      }
      var transcript := env.transcript(nonce, k, ip.value);
      if transcript.None? {
        return None;
      }
      log := log + {transcript.value};
      var lease := MintLease(env, k, ip.value);
      if lease.Rejected? {
        return None;
      }
      log := log + {LeaseBytes(env, lease.value)};
      return Some(Response(nonce, k, ip.value, TunnelIPv6(env.server6, ip.value), Sign(transcript.value), lease.value));
    }

    method InstallOrUndo(id: string, k: Key, addOk: bool) returns (ip: Option<Address>)
      requires Ready() && FirstMember(store.members, id) < |store.members|
      modifies this`peers, store, allocator
      ensures Ready()
      ensures (View(), ip) == Install(env, old(View()), id, k, addOk)
    {
      StepKeeps(allocator.View(), DoAllocate(k));
      ip := allocator.Allocate(k);
      if ip.None? {
        return;
      }
      StepKeeps(allocator.View(), DoRelease(k));
      var rec := Record(env, k, ip.value);
      AddsUnlessBlank(store.members, id, rec);
      var added := store.AddClient(id, rec);
      if !added {
        allocator.Release(k);
        return None;
      }
      if !addOk {
        Undo(id, k);
        return None;
      }
      AddPeerAndSave(k, ip.value);
    }

    method AddPeerAndSave(k: Key, ip: Address)
      requires Ready()
      modifies this`peers, store`saved
      ensures Ready() && View() == old(View()).(peers := old(peers)[k := ip], saved := store.members)
    {
      peers := peers[k := ip];
      store.Save();
    }

    /** Take the record and the address back; the peer, if any, stays. */
    method Undo(id: string, k: Key)
      requires Ready()
      modifies store, allocator
      ensures Ready()
      ensures View() == old(View()).(members := RemoveClient(old(store.members), id, k).1,
                                     alloc := Release(old(allocator.View()), k))
    {
      StepKeeps(allocator.View(), DoRelease(k));
      var _ := store.RemoveClient(id, k);
      allocator.Release(k);
    }

    method ReapNonces(now: Time)
      modifies this`nonces
      ensures nonces == N.Reap(old(nonces), now)
    {
      var todo := nonces.Keys;
      while todo != {}
        invariant todo <= old(nonces).Keys && nonces.Keys <= old(nonces).Keys
        invariant forall k :: k in nonces ==> nonces[k] == old(nonces)[k]
        invariant forall k :: k in todo ==> k in nonces
        invariant forall k :: k in old(nonces) && k !in todo ==>
                              (k in nonces <==> !(old(nonces)[k].createdAt < now - N.SHORT_LIVED_TTL))
        decreases |todo|
      {
        var k :| k in todo;
        todo := todo - {k};
        if nonces[k].createdAt < now - N.SHORT_LIVED_TTL {
          nonces := nonces - {k};
        }
      }
    }

    // ---- liveness ----

    method HeartbeatAck(generation: int, now: Time)
      modifies this`live
      ensures View() == R.HandleAck(old(View()), generation, now)
    {
      if generation == store.generation {
        live := L.Mark(live, now, false);
      }
    }

    method WatchLiveness(now: Time)
      modifies this`live, this`peers
      ensures View() == R.CheckLiveness(old(View()), now)
    {
      var trip := false;
      if live.failClosed {
        return;
      } else if !live.appliedOnce {
        if store.lastAppliedAt != 0 && now - store.lastAppliedAt <= L.STALE_BOUND {
          live := live.(appliedOnce := true);
          if live.last == 0 {
            live := live.(last := store.lastAppliedAt);
          }
          return;
        }
        trip := now - live.bootAt > L.COLD_START_TIMEOUT;
      } else {
        var ref := live.last;
        if ref == 0 {
          ref := store.lastAppliedAt;
        }
        trip := ref != 0 && now - ref > L.STALE_BOUND;
      }
      if trip {
        live := live.(failClosed := true);
        DropAllPeers();
      }
    }

    method DropAllPeers()
      modifies this`peers
      ensures peers == old(peers) - ClientKeys(store.members)
    {
      Lr.NoClientKeys();
      assert old(peers) - {} == old(peers);
      for i := 0 to |store.members|
        invariant peers == old(peers) - ClientKeys(store.members[..i])
      {
        RemoveAllClients(store.members[i].clients);
        assert store.members[..i + 1] == store.members[..i] + [store.members[i]];
        ClientKeysSnoc(store.members[..i], store.members[i]);
      }
      assert store.members[..|store.members|] == store.members;
    }
  }

  lemma {:induction false} AddsUnlessBlank(ms: seq<Member>, id: string, rec: Client)
    requires FirstMember(ms, id) < |ms|
    ensures AddClient(ms, id, rec).0 <==> rec.key != ""
  {
  }

  lemma {:induction false} NotAdopted(a: Alloc, k: Key, ip: Address)
    requires !TryAdopt(a, k, ip).1
    ensures TryAdopt(a, k, ip).0 == a
  {
  }
}
