/** How a member is admitted: an owner-signed invite and an acceptance, checked once, after which the
    agent's own certificate stands for them. */
module Admission {
  import opened Base
  import opened Addresses
  import opened Allocator
  import opened Wire
  import opened Signing

  const INVITE_EXPIRY_SKEW: Time := 5 * MINUTE

  predicate Lapsed(e: Expiry, now: Time) {
    e.At? && now > e.t + INVITE_EXPIRY_SKEW
  }

  /** VerifyJoinAttestation. */
  function VerifyJoin(env: Env, att: JoinAttestation, identityKey: string, ownerKey: string,
                      now: Time): Result<Invite> {
    if att.payloadText == "" || att.ownerSig == "" || att.acceptanceSig == "" then Rejected
    else if att.raw.None? || att.canon.None? then Rejected
    else if !env.verify(ownerKey, att.canon.value, att.ownerSig) then Rejected
    else if att.invite.None? then Rejected
    else
      var inv := att.invite.value;
      if inv.invitePub == "" then Rejected
      else if inv.expiresAt.BadExpiry? || Lapsed(inv.expiresAt, now) then Rejected
      else if env.nasPub == "" || inv.nasPubkey == "" || inv.nasPubkey != env.nasPub then Rejected
      else
        match (env.decodeKey(inv.invitePub), env.decodeKey(identityKey))
        case (Some(inviteKey), Some(memberKey)) =>
          if env.verify(inviteKey, memberKey, att.acceptanceSig) then Ok(inv) else Rejected
        case _ => Rejected
  }

  /** MintAdmittanceCertificate: the certificate; the caller adds its body to the log. */
  function Mint(env: Env, memberId: string, identityKey: string, raw: string, apps: seq<string>,
                now: Time): Result<Certificate> {
    if memberId == "" || identityKey == "" || env.nasPub == "" || raw == "" then Rejected
    else
      var body := Certificate(memberId, identityKey, env.nasPub, now / SECOND, Hash(raw), apps, "");
      Ok(body.(signature := Sign(CertBytes(body))))
  }

  /** VerifyAdmittanceCertificate. */
  predicate VerifyCert(env: Env, log: Log, c: Certificate, memberId: string, identityKey: string) {
    && c.memberId == memberId && c.identityKey == identityKey && c.nasPubkey == env.nasPub
    && c.signature != "" && OwnSigned(log, CertBytes(c), c.signature)
  }

  /** MintTunnelIPLease. */
  function MintLease(env: Env, k: Key, ip: Address): Result<Lease> {
    if env.deviceId == "" || k == "" || ip == NoAddress then Rejected
    else
      var body := Lease(env.deviceId, k, ip, "");
      Ok(body.(signature := Sign(LeaseBytes(env, body))))
  }

  /** VerifyTunnelIPLease. */
  predicate VerifyLease(env: Env, log: Log, l: Lease, k: Key) {
    && l.deviceId == env.deviceId && l.key == k && l.ip != NoAddress
    && l.signature != "" && OwnSigned(log, LeaseBytes(env, l), l.signature)
  }

  // ---- what a verified certificate or lease proves ----

  /** These checks were made for this certificate's member and key: an owner-signed invite, not lapsed
      at the time, scoped to this agent, and an acceptance of exactly that key by the invite's holder. */
  ghost predicate Vetted(env: Env, ownerKey: string, c: Certificate, att: JoinAttestation, now: Time) {
    && att.raw.Some? && att.canon.Some? && att.invite.Some?
    && env.verify(ownerKey, att.canon.value, att.ownerSig)
    && att.invite.value.nasPubkey == env.nasPub
    && !att.invite.value.expiresAt.BadExpiry? && !Lapsed(att.invite.value.expiresAt, now)
    && env.decodeKey(att.invite.value.invitePub).Some? && env.decodeKey(c.identityKey).Some?
    && env.verify(env.decodeKey(att.invite.value.invitePub).value, env.decodeKey(c.identityKey).value,
                  att.acceptanceSig)
    && c.nasPubkey == env.nasPub && c.attestationHash == Hash(att.raw.value)
    && c.initialApps == att.invite.value.allowedAppIds && c.admittedAt == now / SECOND
  }

  ghost predicate Admitted(env: Env, ownerKey: string, c: Certificate) {
    exists att, now :: Vetted(env, ownerKey, c, att, now)
  }

  /** Of what the agent has signed, nothing is the body of a certificate but the certificates of members
      it vetted. */
  ghost predicate LogJustified(env: Env, ownerKey: string, log: Log) {
    forall m :: m in log ==> IsLease(env, m) || IsAdmission(env, ownerKey, m) || IsOther(m)
  }

  ghost predicate IsLease(env: Env, m: string) {
    exists l :: m == LeaseBytes(env, l)
  }

  ghost predicate IsAdmission(env: Env, ownerKey: string, m: string) {
    exists c :: m == CertBytes(c) && Admitted(env, ownerKey, c)
  }

  /** Minting after a successful check keeps the log justified, and the certificate verifies. */
  lemma {:induction false} MintJustified(env: Env, log: Log, att: JoinAttestation, memberId: string,
                                         identityKey: string, ownerKey: string, now: Time)
    requires LogJustified(env, ownerKey, log)
    requires VerifyJoin(env, att, identityKey, ownerKey, now).Ok?
    requires Mint(env, memberId, identityKey, att.raw.value, att.invite.value.allowedAppIds, now).Ok?
    ensures var c := Mint(env, memberId, identityKey, att.raw.value, att.invite.value.allowedAppIds, now).value;
            && Admitted(env, ownerKey, c)
            && LogJustified(env, ownerKey, log + {CertBytes(c)})
            && VerifyCert(env, log + {CertBytes(c)}, c, memberId, identityKey)
  {
    var c := Mint(env, memberId, identityKey, att.raw.value, att.invite.value.allowedAppIds, now).value;
    assert Vetted(env, ownerKey, c, att, now);
    assert CertTree(c) == CertTree(c.(signature := ""));
  }

  /** A certificate that verifies was minted by this agent for a member it vetted. */
  lemma {:induction false} CertMeansAdmitted(env: Env, ownerKey: string, log: Log, c: Certificate, memberId: string,
                                             identityKey: string)
    requires LogJustified(env, ownerKey, log) && VerifyCert(env, log, c, memberId, identityKey)
    ensures Admitted(env, ownerKey, c)
  {
    var m := CertBytes(c);
    if l :| m == LeaseBytes(env, l) {
      CertNotLease(env, c, l);
    }
    if IsOther(m) {
      CertNotOther(c, m);
    }
    var d :| m == CertBytes(d) && Admitted(env, ownerKey, d);
    CertBytesInjective(c, d);
    var att, now :| Vetted(env, ownerKey, d, att, now);
    assert Vetted(env, ownerKey, c, att, now);
  }

  /** A lease verifies for a key exactly when it is, to the letter, the lease this agent mints for
      that key and some address, and the agent has signed it. */
  lemma {:induction false} LeaseVerifiesIff(env: Env, log: Log, l: Lease, k: Key)
    requires env.deviceId != "" && k != ""
    ensures VerifyLease(env, log, l, k) <==> MintLease(env, k, l.ip) == Ok(l) && LeaseBytes(env, l) in log
  {
  }

  /** A minted lease verifies for its key, and keeps verifying as the log grows. */
  lemma {:induction false} MintedLeaseVerifies(env: Env, log: Log, k: Key, ip: Address)
    requires MintLease(env, k, ip).Ok?
    ensures var l := MintLease(env, k, ip).value;
            l.ip == ip && VerifyLease(env, log + {LeaseBytes(env, l)}, l, k)
  {
  }
}
