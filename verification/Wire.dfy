/** The records the agent stores and receives. A document arriving as raw JSON is carried together
    with what decoding it yields (its typed payload and its canonical re-encoding), each None when
    that decoding fails. */
module Wire {
  import opened Base
  import opened Addresses
  import opened Allocator

  datatype App = App(id: string, slug: string, internalUrl: string, kind: string, port: int, protocol: string) {
    predicate IsPort() {
      kind == "port"
    }
  }

  datatype Client = Client(key: Key, ip4: Address, ip6: Address, title: string, platform: string, endpointType: string)

  datatype Certificate = Certificate(
    memberId: string, identityKey: string, nasPubkey: string, admittedAt: int,
    attestationHash: string, initialApps: seq<string>, signature: string)

  datatype Expiry = NoExpiry | BadExpiry | At(t: Time)

  datatype Invite = Invite(nasPubkey: string, allowedAppIds: seq<string>, expiresAt: Expiry, invitePub: string)

  datatype JoinAttestation = JoinAttestation(
    payloadText: string, raw: Option<string>, canon: Option<string>, invite: Option<Invite>,
    ownerSig: string, acceptanceSig: string)

  datatype Member = Member(
    id: string, userId: string, name: string, email: string, role: string, identityKey: string,
    join: Option<JoinAttestation>, admittance: Option<Certificate>,
    clients: seq<Client>, apps: seq<App>, status: string)
  {
    predicate IsAdmin() {
      role == "admin" || role == "owner"
    }

    predicate IsActive() {
      status == "" || status == "active"
    }
  }

  // ---- device:state ----

  datatype Envelope<+P> = Envelope(payload: Option<P>, canon: Option<string>, signerId: string, signature: string)

  datatype AppPayload = AppPayload(intent: string, app: App)
  datatype StatusPayload = StatusPayload(intent: string, ts: int, memberId: string, status: string)
  datatype PermissionsPayload = PermissionsPayload(intent: string, ts: int, memberId: string,
                                                   allowedAppIds: seq<string>)
  datatype RegisterPayload = RegisterPayload(intent: string, ts: int, memberId: string, publicKey: Key)

  datatype Lease = Lease(deviceId: string, key: Key, ip: Address, signature: string)

  datatype DsClient = DsClient(
    key: Key, title: string, platform: string, endpointType: string,
    registration: Option<Envelope<RegisterPayload>>, lease: Option<Lease>)

  datatype DsMember = DsMember(
    id: string, userId: string, name: string, email: string, role: string, identityKey: string,
    join: Option<JoinAttestation>, admittance: Option<Certificate>,
    status: Option<Envelope<StatusPayload>>, permissions: Option<Envelope<PermissionsPayload>>,
    clients: seq<DsClient>)
  {
    predicate IsAdmin() {
      role == "admin" || role == "owner"
    }
  }

  datatype Push = Push(deviceId: string, generation: int, members: seq<DsMember>,
                       apps: seq<Option<Envelope<AppPayload>>>)
}
