/** Ideal signatures. Whether somebody else's signature verifies is a fixed fact about the
    environment. The agent's own key signs only what the agent signed: `log` is the set of those
    messages, and Ed25519 being deterministic, a message has one signature. */
module Signing {
  import opened Base
  import opened Addresses
  import opened Allocator
  import opened Wire
  import opened Json
  import T = Text
  import JT = JsonText
  import C = CanonJson

  /** Everything fixed for the life of the process. `decodeKey` is base64 decoding to a 32-byte key,
      `ipText` the string an address stands for, `urlOk` the test on a proxy app's URL, and `transcript`
      the digest a provision response is signed over: of nonce, client key, address and the server's own
      fields, or none when one of them does not decode. */
  datatype Env = Env(
    deviceId: string, nasPub: string, tunnelHost: string, server6: Address,
    decodeKey: string -> Option<string>,
    verify: (string, string, string) -> bool,
    urlOk: string -> bool,
    ipText: Address -> string,
    transcript: (string, Key, Address) -> Option<Digest>)

  type Log = set<string>

  const DIGEST_SIZE := 32

  type Digest = s: string | |s| == DIGEST_SIZE witness "________________________________"

  function Sign(msg: string): string {
    "ed25519:" + msg
  }

  /** ed25519.Verify under the agent's own public key. */
  predicate OwnSigned(log: Log, msg: string, sig: string) {
    msg in log && sig == Sign(msg)
  }

  function Hash(bytes: string): string {
    "sha256:" + bytes
  }

  // ---- the two bodies the agent signs and later verifies ----

  function StrArr(ids: seq<string>): Json {
    Arr(seq(|ids|, i requires 0 <= i < |ids| => Str(ids[i])))
  }

  function CertTree(c: Certificate): Json {
    Obj(map[
      "memberId" := Str(c.memberId), "identityKey" := Str(c.identityKey), "nasPubkey" := Str(c.nasPubkey),
      "admittedAt" := Num(T.Decimal(c.admittedAt)), "attestationHash" := Str(c.attestationHash),
      "initialAllowedAppIds" := StrArr(c.initialApps)])
  }

  function CertBytes(c: Certificate): string {
    Print(CertTree(c))
  }

  function LeaseTree(env: Env, l: Lease): Json {
    Obj(map["deviceId" := Str(l.deviceId), "wgPublicKey" := Str(l.key), "tunnelIp" := Str(env.ipText(l.ip))])
  }

  function LeaseBytes(env: Env, l: Lease): string {
    Print(LeaseTree(env, l))
  }

  /** Different addresses are different strings. */
  ghost predicate TextFaithful(env: Env) {
    forall a, b :: env.ipText(a) == env.ipText(b) ==> a == b
  }

  lemma {:induction false} SkipAllDigits(s: string)
    requires forall i :: 0 <= i < |s| ==> '0' <= s[i] <= '9'
    ensures JT.SkipDigits(s) == ""
  {
    if s != "" {
      SkipAllDigits(s[1..]);
    }
  }

  lemma {:induction false} DecimalIsNumber(n: int)
    ensures JT.IsNumber(T.Decimal(n))
  {
    var t := T.Digits(if n < 0 then -n else n);
    var s := T.Decimal(n);
    SkipAllDigits(t);
    assert s[0] == '-' ==> s[1..] == t;
    if n == 0 {
      assert t[1..] == "";
    }
  }

  lemma {:induction false} CertFields(c: Certificate, f: map<string, Json>)
    requires f == CertTree(c).fields
    ensures f.Keys == {"memberId", "identityKey", "nasPubkey", "admittedAt", "attestationHash", "initialAllowedAppIds"}
    ensures f["memberId"] == Str(c.memberId) && f["identityKey"] == Str(c.identityKey)
            && f["nasPubkey"] == Str(c.nasPubkey)
    ensures f["admittedAt"] == Num(T.Decimal(c.admittedAt)) && f["attestationHash"] == Str(c.attestationHash)
    ensures f["initialAllowedAppIds"] == StrArr(c.initialApps)
  {
  }

  lemma {:induction false} LeaseFields(env: Env, l: Lease, f: map<string, Json>)
    requires f == LeaseTree(env, l).fields
    ensures f.Keys == {"deviceId", "wgPublicKey", "tunnelIp"}
    ensures f["deviceId"] == Str(l.deviceId) && f["wgPublicKey"] == Str(l.key) && f["tunnelIp"] == Str(env.ipText(l.ip))
  {
  }

  lemma {:induction false} StrArrSignable(ids: seq<string>)
    ensures C.Signable(StrArr(ids))
  {
  }

  lemma {:induction false} CertSignable(c: Certificate)
    ensures C.Signable(CertTree(c))
  {
    DecimalIsNumber(c.admittedAt);
    StrArrSignable(c.initialApps);
    CertFields(c, CertTree(c).fields);
  }

  lemma {:induction false} LeaseSignable(env: Env, l: Lease)
    ensures C.Signable(LeaseTree(env, l))
  {
  }

  lemma {:induction false} CertTreeInjective(c: Certificate, d: Certificate)
    requires CertTree(c) == CertTree(d)
    ensures c == d.(signature := c.signature)
  {
    CertFields(c, CertTree(c).fields);
    CertFields(d, CertTree(c).fields);
    T.DecimalInjective(c.admittedAt, d.admittedAt);
    StrArrInjective(c.initialApps, d.initialApps);
  }

  lemma {:induction false} StrArrInjective(a: seq<string>, b: seq<string>)
    requires StrArr(a) == StrArr(b)
    ensures a == b
  {
    assert |StrArr(a).items| == |a| && |StrArr(b).items| == |b|;
    forall i | 0 <= i < |a|
      ensures a[i] == b[i]
    {
      assert StrArr(a).items[i] == Str(a[i]) && StrArr(b).items[i] == Str(b[i]);
    }
  }

  /** The body determines every field but the signature. */
  lemma {:induction false} CertBytesInjective(c: Certificate, d: Certificate)
    requires CertBytes(c) == CertBytes(d)
    ensures c == d.(signature := c.signature)
  {
    CertSignable(c);
    CertSignable(d);
    C.PrintInjective(CertTree(c), CertTree(d));
    CertTreeInjective(c, d);
  }

  lemma {:induction false} LeaseTreeInjective(env: Env, l: Lease, m: Lease)
    requires TextFaithful(env) && LeaseTree(env, l) == LeaseTree(env, m)
    ensures l == m.(signature := l.signature)
  {
    LeaseFields(env, l, LeaseTree(env, l).fields);
    LeaseFields(env, m, LeaseTree(env, l).fields);
  }

  lemma {:induction false} LeaseBytesInjective(env: Env, l: Lease, m: Lease)
    requires TextFaithful(env) && LeaseBytes(env, l) == LeaseBytes(env, m)
    ensures l == m.(signature := l.signature)
  {
    LeaseSignable(env, l);
    LeaseSignable(env, m);
    C.PrintInjective(LeaseTree(env, l), LeaseTree(env, m));
    LeaseTreeInjective(env, l, m);
  }

  lemma {:induction false} CertTreeNotLease(env: Env, c: Certificate, l: Lease)
    ensures CertTree(c) != LeaseTree(env, l)
  {
    CertFields(c, CertTree(c).fields);
    LeaseFields(env, l, LeaseTree(env, l).fields);
    assert |"attestationHash"| == 15 && |"deviceId"| == 8 && |"wgPublicKey"| == 11 && |"tunnelIp"| == 8;
    assert "attestationHash" in CertTree(c).fields.Keys && "attestationHash" !in LeaseTree(env, l).fields.Keys;
  }

  /** A lease signature can never stand in for a certificate signature. */
  lemma {:induction false} CertNotLease(env: Env, c: Certificate, l: Lease)
    ensures CertBytes(c) != LeaseBytes(env, l)
  {
    CertSignable(c);
    LeaseSignable(env, l);
    CertTreeNotLease(env, c, l);
    if CertBytes(c) == LeaseBytes(env, l) {
      C.PrintInjective(CertTree(c), LeaseTree(env, l));
    }
  }

  // ---- everything else the agent signs ----

  /** Bodies of other signed messages: authentication, relay and upstream envelopes carry an intent, probe
      answers and endpoint lists a timestamp. */
  predicate OtherBody(t: Json) {
    C.Signable(t) && t.Obj? && ("intent" in t.fields || "timestamp" in t.fields)
  }

  /** Such a body, or a SHA-256 digest. */
  ghost predicate IsOther(m: string) {
    |m| == DIGEST_SIZE || exists t :: OtherBody(t) && m == Print(t)
  }

  lemma {:induction false} EscapedLength(s: string)
    ensures |EscapeAll(s)| >= |s|
  {
    if s != "" {
      EscapedLength(s[1..]);
    }
  }

  lemma {:induction false} FieldsLength(t: Json, keys: seq<string>, i: nat)
    requires t.Obj? && i <= |keys| && forall j :: 0 <= j < |keys| ==> keys[j] in t.fields && |keys[j]| >= 8
    ensures |PrintFields(t, keys, i)| >= 11 * (|keys| - i)
    decreases |keys| - i
  {
    if i < |keys| {
      FieldsLength(t, keys, i + 1);
      EscapedLength(keys[i]);
    }
  }

  lemma {:induction false} SortedCount(q: seq<string>)
    requires Sorted(q)
    ensures |Elements(q)| == |q|
  {
    if q == [] {
      assert Elements(q) == {};
    } else {
      TailElements(q);
      SortedCount(q[1..]);
      assert q[0] in Elements(q);
      assert Elements(q) == Elements(q[1..]) + {q[0]};
    }
  }

  /** Three fields with names of eight characters or more are longer than a digest. */
  lemma {:induction false} LongerThanDigest(t: Json)
    requires t.Obj? && |t.fields.Keys| >= 3 && forall k :: k in t.fields ==> |k| >= 8
    ensures |Print(t)| > DIGEST_SIZE
  {
    var keys := SortedKeys(t.fields.Keys);
    SortedKeysIn(t.fields);
    SortedCount(keys);
    FieldsLength(t, keys, 0);
  }

  lemma {:induction false} CertKeys(ks: set<string>)
    requires ks == {"memberId", "identityKey", "nasPubkey", "admittedAt", "attestationHash", "initialAllowedAppIds"}
    ensures |ks| >= 3 && "intent" !in ks && "timestamp" !in ks && forall k :: k in ks ==> |k| >= 8
  {
    assert |"memberId"| == 8 && |"identityKey"| == 11 && |"nasPubkey"| == 9 && |"intent"| == 6 && |"timestamp"| == 9;
    assert "timestamp"[0] == 't' && "nasPubkey"[0] == 'n';
    assert |{"memberId", "identityKey", "nasPubkey"}| == 3;
    SubsetCount({"memberId", "identityKey", "nasPubkey"}, ks);
  }

  lemma {:induction false} LeaseKeys(ks: set<string>)
    requires ks == {"deviceId", "wgPublicKey", "tunnelIp"}
    ensures |ks| == 3 && "intent" !in ks && "timestamp" !in ks && forall k :: k in ks ==> |k| >= 8
  {
    assert "deviceId"[0] == 'd' && "tunnelIp"[0] == 't' && |"wgPublicKey"| == 11 && |"intent"| == 6
           && |"timestamp"| == 9;
  }

  /** Three fields with long names, neither intent nor timestamp, print as nothing else the agent signs. */
  lemma {:induction false} NotOther(t: Json, m: string)
    requires C.Signable(t) && t.Obj? && |t.fields.Keys| >= 3 && "intent" !in t.fields && "timestamp" !in t.fields
    requires forall k :: k in t.fields ==> |k| >= 8
    requires IsOther(m)
    ensures Print(t) != m
  {
    LongerThanDigest(t);
    if u :| OtherBody(u) && m == Print(u) && Print(t) == m {
      C.PrintInjective(t, u);
    }
  }

  /** Nor can any other signature of the agent's. */
  lemma {:induction false} CertNotOther(c: Certificate, m: string)
    requires IsOther(m)
    ensures CertBytes(c) != m
  {
    CertFields(c, CertTree(c).fields);
    CertSignable(c);
    CertKeys(CertTree(c).fields.Keys);
    NotOther(CertTree(c), m);
  }

  lemma {:induction false} LeaseNotOther(env: Env, l: Lease, m: string)
    requires IsOther(m)
    ensures LeaseBytes(env, l) != m
  {
    LeaseFields(env, l, LeaseTree(env, l).fields);
    LeaseSignable(env, l);
    LeaseKeys(LeaseTree(env, l).fields.Keys);
    NotOther(LeaseTree(env, l), m);
  }

  lemma {:induction false} SubsetCount<T>(a: set<T>, b: set<T>)
    requires a <= b
    ensures |a| <= |b|
  {
    assert b == a + (b - a);
  }
}
