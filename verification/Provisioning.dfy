/** `wg:challenge` and `wg:provision`: a member's signed request gives one client key an address, an
    ACL record and a peer, each step undone if a later one fails. */
module Provisioning {
  import opened Base
  import opened Addresses
  import opened Allocator
  import opened Wire
  import opened Acl
  import opened Signing
  import opened Admission
  import opened DeviceState
  import T = Text
  import N = Nonces

  const COMMAND_TIMESTAMP_SKEW: int := 120

  /** A command as received: its own fields and the envelope around it. */
  datatype Command = Command(intent: string, ts: int, canon: Option<string>, signerId: string, signature: string)

  /** verifyCommand with MemberAuth(memberId): intent, freshness, and the signature of the key the ACL
      holds for that member. */
  predicate FromMember(env: Env, ms: seq<Member>, memberId: string, cmd: Command, expected: string, now: Time) {
    && cmd.intent == expected
    && -COMMAND_TIMESTAMP_SKEW <= now / SECOND - cmd.ts <= COMMAND_TIMESTAMP_SKEW
    && cmd.signerId == memberId && cmd.signerId != "" && cmd.signature != ""
    && Find(ms, HasId, cmd.signerId).Some?
    && var key := env.decodeKey(Find(ms, HasId, cmd.signerId).value.identityKey);
       key.Some? && cmd.canon.Some? && env.verify(key.value, cmd.canon.value, cmd.signature)
  }

  datatype ChallengeReq = ChallengeReq(corr: string, membershipId: string, memberId: string, clientKey: Key,
                                       cmd: Command) {
    function Id(): string {
      if membershipId == "" then memberId else membershipId
    }
  }

  /** HandleChallenge; `nonce` is the random nonce drawn. */
  function HandleChallenge(env: Env, s: State, req: ChallengeReq, nonce: string, now: Time): (State, Option<string>) {
    if FromMember(env, s.members, req.Id(), req.cmd, "wg:challenge-" + req.Id() + "-" + T.Decimal(req.cmd.ts), now) then
      (s.(nonces := s.nonces[req.corr := N.Entry(nonce, req.Id(), req.clientKey, now)]), Some(nonce))
    else (s, None)
  }

  datatype ProvisionReq = ProvisionReq(corr: string, challengeCorr: string, clientId: string, clientKey: Key,
                                       nonce: string, cmd: Command) {
    function NonceKey(): string {
      if challengeCorr == "" then corr else challengeCorr
    }
  }

  /** The response; `nonce` is the one bound into the transcript that is signed. */
  datatype Response = Response(nonce: string, key: Key, ip4: Address, ip6: Address, signature: string, lease: Lease)

  function RequestedKey(req: ProvisionReq, e: N.Entry): Key {
    if req.clientKey == "" then e.clientKey else req.clientKey
  }

  /** The request passed its checks for this challenge entry. */
  predicate RequestVerified(env: Env, ms: seq<Member>, req: ProvisionReq, e: N.Entry, now: Time) {
    FromMember(env, ms, e.memberId, req.cmd,
               "wg:provision-" + e.memberId + "-" + req.clientId + "-" + req.nonce + "-" + T.Decimal(req.cmd.ts), now)
  }

  /** HandleProvision; `addOk` is whether AddPeer succeeds. */
  function HandleProvision(env: Env, s: State, req: ProvisionReq, now: Time, addOk: bool): (State, Option<Response>) {
    if env.tunnelHost == "" then (s, None)
    else
      var (nonces, entry) := N.Consume(s.nonces, req.NonceKey(), req.nonce, now);
      var s1 := s.(nonces := nonces);
      if entry.None? || !RequestVerified(env, s.members, req, entry.value, now) then (s1, None)
      else Provision(env, s1, entry.value.memberId, RequestedKey(req, entry.value), entry.value.nonce, addOk)
  }

  function Record(env: Env, k: Key, ip: Address): Client {
    Client(k, ip, TunnelIPv6(env.server6, ip), "", "", "")
  }

  /** Allocate, record, install, save; on failure undo, and save nothing. The address on success. */
  function Install(env: Env, s: State, id: string, k: Key, addOk: bool): (State, Option<Address>) {
    var (a, ip) := Allocate(s.alloc, k);
    if ip.None? then (s, None)
    else
      var (ok, ms) := AddClient(s.members, id, Record(env, k, ip.value));
      if !ok then (s.(members := ms, alloc := Release(a, k)), None)
      else if !addOk then (s.(members := RemoveClient(ms, id, k).1, alloc := Release(a, k)), None)
      else (s.(members := ms, alloc := a, peers := s.peers[k := ip.value], saved := ms), ip)
  }

  /** Then sign the transcript of the response and a lease for the address, and answer. A failure here
      undoes nothing. */
  function Provision(env: Env, s: State, id: string, k: Key, nonce: string, addOk: bool): (State, Option<Response>) {
    var (s', ip) := Install(env, s, id, k, addOk);
    if ip.None? then (s', None) else Answer(env, s', k, ip.value, nonce)
  }

  function Answer(env: Env, s: State, k: Key, ip: Address, nonce: string): (State, Option<Response>) {
    var transcript := env.transcript(nonce, k, ip);
    if transcript.None? then (s, None)
    else
      var s' := s.(log := s.log + {transcript.value});
      var lease := MintLease(env, k, ip);
      if lease.Rejected? then (s', None)
      else (s'.(log := s'.log + {LeaseBytes(env, lease.value)}),
            Some(Response(nonce, k, ip, TunnelIPv6(env.server6, ip), Sign(transcript.value), lease.value)))
  }
}
