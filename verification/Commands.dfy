/** Exactly when a member's command is answered, and what a provision answers. */
module Commands {
  import opened Base
  import opened Addresses
  import opened Allocator
  import opened Wire
  import opened Acl
  import opened Signing
  import opened Admission
  import opened DeviceState
  import opened Addressing
  import opened Grounds
  import opened Provisioning
  import opened ProvisionFacts
  import T = Text
  import N = Nonces

  /** The key the ACL holds for an id, that of the last member with it, signs these bytes. */
  ghost predicate MemberSigns(env: Env, ms: seq<Member>, id: string, canon: string, signature: string) {
    exists i :: LastWithId(ms, id, i) && env.decodeKey(ms[i].identityKey).Some?
                && env.verify(env.decodeKey(ms[i].identityKey).value, canon, signature)
  }

  /** The command names this member as its signer, carries this intent, is at most two minutes off the
      agent's clock, and is signed by the member. */
  ghost predicate Commanded(env: Env, ms: seq<Member>, id: string, cmd: Command, intent: string, now: Time) {
    && id != "" && cmd.signerId == id && cmd.intent == intent
    && now / 1_000_000_000 - cmd.ts <= 120 && cmd.ts - now / 1_000_000_000 <= 120
    && cmd.signature != "" && cmd.canon.Some? && MemberSigns(env, ms, id, cmd.canon.value, cmd.signature)
  }

  lemma {:induction false} CommandIff(env: Env, ms: seq<Member>, id: string, cmd: Command, intent: string, now: Time)
    ensures FromMember(env, ms, id, cmd, intent, now) <==> Commanded(env, ms, id, cmd, intent, now)
  {
    var last := LastMatch(ms, HasId, cmd.signerId);
    if last.Some? {
      assert LastWithId(ms, cmd.signerId, last.value);
    }
  }

  // ---- challenges ----

  /** The challenge is a command of the member it names. */
  ghost predicate ChallengeStands(env: Env, ms: seq<Member>, req: ChallengeReq, now: Time) {
    var id := if req.membershipId != "" then req.membershipId else req.memberId;
    Commanded(env, ms, id, req.cmd, "wg:challenge-" + id + "-" + T.Decimal(req.cmd.ts), now)
  }

  /** A challenge is answered, with the nonce drawn, if and only if it is a command of the member it names;
      then the nonce waits under its correlation id, and nothing else changes. */
  lemma {:induction false} ChallengeIff(env: Env, s: State, req: ChallengeReq, nonce: string, now: Time)
    ensures var (t, r) := HandleChallenge(env, s, req, nonce, now);
            var id := if req.membershipId != "" then req.membershipId else req.memberId;
            if ChallengeStands(env, s.members, req, now)
            then r == Some(nonce) && t == s.(nonces := s.nonces[req.corr := N.Entry(nonce, id, req.clientKey, now)])
            else r == None && t == s
  {
    CommandIff(env, s.members, req.Id(), req.cmd, "wg:challenge-" + req.Id() + "-" + T.Decimal(req.cmd.ts), now);
  }

  // ---- provisions ----

  /** The challenge a provision names is still waiting, no older than five minutes, and its nonce is echoed. */
  predicate Echoes(p: N.Pending, req: ProvisionReq, now: Time, e: N.Entry) {
    var key := if req.challengeCorr != "" then req.challengeCorr else req.corr;
    key in p && p[key] == e && e.nonce == req.nonce && now - e.createdAt <= 5 * 60 * 1_000_000_000
  }

  /** The request is a command of the member, for this client id and nonce. */
  ghost predicate RequestStands(env: Env, ms: seq<Member>, req: ProvisionReq, id: string, now: Time) {
    Commanded(env, ms, id, req.cmd,
              "wg:provision-" + id + "-" + req.clientId + "-" + req.nonce + "-" + T.Decimal(req.cmd.ts), now)
  }

  function AskedKey(req: ProvisionReq, e: N.Entry): Key {
    if req.clientKey != "" then req.clientKey else e.clientKey
  }

  /** The address a key is given: the one it has, or else the lowest free host from 2 to 254. */
  ghost predicate Given(a: Alloc, k: Key, ip: Address) {
    if k in a.bound then ip == a.bound[k] else exists h: Byte :: LowestFree(a, h) && ip == V4(a.net, h)
  }

  ghost predicate LowestFree(a: Alloc, h: Byte) {
    2 <= h <= 254 && V4(a.net, h) !in a.used && forall j: Byte :: 2 <= j < h ==> V4(a.net, j) in a.used
  }

  lemma {:induction false} AllocateIff(a: Alloc, k: Key, ip: Address)
    requires Valid(a)
    ensures Allocate(a, k).1 == Some(ip) <==> Given(a, k, ip)
  {
    AllocateLowestFree(a, k);
    var r := Allocate(a, k).1;
    if k !in a.bound && r.Some? {
      assert LowestFree(a, r.value.host);
    }
  }

  /** Everything a provision needs, with the challenge entry it answers and the address it gives. */
  ghost predicate ProvisionStands(env: Env, s: State, req: ProvisionReq, now: Time, added: bool, e: N.Entry,
                                  ip: Address) {
    && env.tunnelHost != "" && env.deviceId != "" && added
    && Echoes(s.nonces, req, now, e)
    && RequestStands(env, s.members, req, e.memberId, now)
    && AskedKey(req, e) != "" && Given(s.alloc, AskedKey(req, e), ip)
    && env.transcript(e.nonce, AskedKey(req, e), ip).Some?
  }

  lemma {:induction false} ConsumeIff(p: N.Pending, req: ProvisionReq, now: Time, e: N.Entry)
    ensures N.Consume(p, req.NonceKey(), req.nonce, now).1 == Some(e) <==> Echoes(p, req, now, e)
  {
  }

  lemma {:induction false} RequestIff(env: Env, ms: seq<Member>, req: ProvisionReq, e: N.Entry, now: Time)
    ensures RequestVerified(env, ms, req, e, now) <==> RequestStands(env, ms, req, e.memberId, now)
    ensures RequestStands(env, ms, req, e.memberId, now) ==> FirstMember(ms, e.memberId) < |ms|
  {
    CommandIff(env, ms, e.memberId, req.cmd,
               "wg:provision-" + e.memberId + "-" + req.clientId + "-" + req.nonce + "-" + T.Decimal(req.cmd.ts), now);
  }

  /** An installed client: in the ACL, first under the member's first entry, at the address bound to its key,
      as a peer, and in the file. */
  ghost predicate Installed(env: Env, s: State, id: string, k: Key, ip: Address) {
    && k in s.alloc.bound && s.alloc.bound[k] == ip && k in s.peers && s.peers[k] == ip && s.saved == s.members
    && FirstMember(s.members, id) < |s.members|
    && exists j :: FirstKey(s.members[FirstMember(s.members, id)].clients, k, j)
         && AtAddress(s.members[FirstMember(s.members, id)].clients[j], ip, TunnelIPv6(env.server6, ip))
  }

  predicate FirstKey(cs: seq<Client>, k: Key, j: int) {
    0 <= j < |cs| && cs[j].key == k && forall l :: 0 <= l < j ==> cs[l].key != k
  }

  /** At the IPv4 address, and at its IPv6 partner if there is one. */
  predicate AtAddress(c: Client, ip: Address, ip6: Address) {
    c.ip4 == ip && (ip6 != NoAddress ==> c.ip6 == ip6)
  }

  lemma {:induction false} PutAt(cs: seq<Client>, rec: Client)
    requires rec.ip4 != NoAddress
    ensures var ds, j := PutClient(cs, rec), FirstClient(cs, rec.key);
            FirstKey(ds, rec.key, j) && AtAddress(ds[j], rec.ip4, rec.ip6)
  {
  }

  lemma {:induction false} InstallStands(env: Env, s: State, id: string, k: Key, ip: Address)
    requires Valid(s.alloc) && Canonical(s.alloc) && k != "" && FirstMember(s.members, id) < |s.members|
    requires Given(s.alloc, k, ip)
    ensures Install(env, s, id, k, true).1 == Some(ip) && Installed(env, Install(env, s, id, k, true).0, id, k, ip)
  {
    AllocateIff(s.alloc, k, ip);
    AllocateLowestFree(s.alloc, k);
    var rec := Record(env, k, ip);
    AddClientShape(s.members, id, rec);
    PutAt(s.members[FirstMember(s.members, id)].clients, rec);
  }

  lemma {:induction false} InstallNeeds(env: Env, s: State, id: string, k: Key, addOk: bool)
    requires Valid(s.alloc) && Install(env, s, id, k, addOk).1.Some?
    ensures addOk && k != "" && Given(s.alloc, k, Install(env, s, id, k, addOk).1.value)
  {
    AllocateIff(s.alloc, k, Install(env, s, id, k, addOk).1.value);
  }

  lemma {:induction false} AnswerIff(env: Env, s: State, k: Key, ip: Address, nonce: string)
    requires k != "" && ip != NoAddress
    ensures Answer(env, s, k, ip, nonce).1.Some? <==> env.transcript(nonce, k, ip).Some? && env.deviceId != ""
  {
  }

  /** A provision is answered if and only if everything it needs is there. */
  lemma {:induction false} ProvisionIff(env: Env, s: State, req: ProvisionReq, now: Time, added: bool)
    requires Valid(s.alloc) && Canonical(s.alloc)
    ensures HandleProvision(env, s, req, now, added).1.Some?
            <==> exists e, ip :: ProvisionStands(env, s, req, now, added, e, ip)
  {
    if HandleProvision(env, s, req, now, added).1.Some? {
      ProvisionNeeds(env, s, req, now, added);
    }
    if e, ip :| ProvisionStands(env, s, req, now, added, e, ip) {
      ProvisionAnswers(env, s, req, now, added, e, ip);
    }
  }

  lemma {:induction false} ProvisionNeeds(env: Env, s: State, req: ProvisionReq, now: Time, added: bool)
    requires Valid(s.alloc) && Canonical(s.alloc) && HandleProvision(env, s, req, now, added).1.Some?
    ensures exists e, ip :: ProvisionStands(env, s, req, now, added, e, ip)
  {
    var (nonces, entry) := N.Consume(s.nonces, req.NonceKey(), req.nonce, now);
    var e := entry.value;
    ConsumeIff(s.nonces, req, now, e);
    RequestIff(env, s.members, req, e, now);
    var s1, k := s.(nonces := nonces), RequestedKey(req, e);
    InstallNeeds(env, s1, e.memberId, k, added);
    var (t, ip) := Install(env, s1, e.memberId, k, added);
    AllocateIff(s.alloc, k, ip.value);
    AllocateLowestFree(s.alloc, k);
    AnswerIff(env, t, k, ip.value, e.nonce);
    assert ProvisionStands(env, s, req, now, added, e, ip.value);
  }

  /** This agent's lease of this address to this key, and it has signed it. */
  predicate LeaseFor(env: Env, log: Log, l: Lease, k: Key, ip: Address) {
    && l.deviceId == env.deviceId && l.key == k && l.ip == ip
    && l.signature == Sign(LeaseBytes(env, l)) && LeaseBytes(env, l) in log
  }

  /** Then the client is installed, and the answer is its key, the address bound to the key, that address's
      IPv6 partner, the nonce, the signed transcript of all that, and a lease that verifies for it. */
  lemma {:induction false} ProvisionAnswers(env: Env, s: State, req: ProvisionReq, now: Time, added: bool, e: N.Entry,
                                            ip: Address)
    requires Valid(s.alloc) && Canonical(s.alloc) && ProvisionStands(env, s, req, now, added, e, ip)
    ensures var (t, r) := HandleProvision(env, s, req, now, added);
            var k := AskedKey(req, e);
            && Installed(env, t, e.memberId, k, ip)
            && r.Some? && r.value.nonce == req.nonce && r.value.key == k && r.value.ip4 == ip
            && r.value.ip6 == TunnelIPv6(env.server6, ip)
            && r.value.signature == Sign(env.transcript(req.nonce, k, ip).value)
            && LeaseFor(env, t.log, r.value.lease, k, ip)
            && t.nonces == s.nonces - {if req.challengeCorr != "" then req.challengeCorr else req.corr}
  {
    ConsumeIff(s.nonces, req, now, e);
    RequestIff(env, s.members, req, e, now);
    var k := AskedKey(req, e);
    var s1 := s.(nonces := s.nonces - {req.NonceKey()});
    InstallStands(env, s1, e.memberId, k, ip);
    AllocateIff(s.alloc, k, ip);
    AllocateLowestFree(s.alloc, k);
    var t := Install(env, s1, e.memberId, k, true).0;
    AnswerIs(env, t, k, ip, e.nonce);
    assert HandleProvision(env, s, req, now, added) == Answer(env, t, k, ip, e.nonce);
  }

  lemma {:induction false} AnswerIs(env: Env, s: State, k: Key, ip: Address, nonce: string)
    requires k != "" && ip != NoAddress && env.transcript(nonce, k, ip).Some? && env.deviceId != ""
    ensures var (t, r) := Answer(env, s, k, ip, nonce);
            && t == s.(log := t.log) && r.Some?
            && r.value.nonce == nonce && r.value.key == k && r.value.ip4 == ip
            && r.value.ip6 == TunnelIPv6(env.server6, ip)
            && r.value.signature == Sign(env.transcript(nonce, k, ip).value)
            && LeaseFor(env, t.log, r.value.lease, k, ip)
  {
    var l := MintLease(env, k, ip).value;
    assert LeaseTree(env, l) == LeaseTree(env, l.(signature := ""));
  }
}
