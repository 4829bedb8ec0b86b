# atreoAGENT: the authorisation state machine, verified

A Dafny 4.11 model of the agent that decides who may use a home server's overlay network. A signed
whole-state push is verified item by item, given addresses by a single-subnet allocator, swapped into an
indexed ACL store, mirrored into the WireGuard peer table and compiled into firewall chains. Challenges,
provisions, heartbeats, liveness checks and restarts change the same state. The main results are about
all runs of that machine: allocator, ACL, peers and firewall stay in agreement, or the exact event that
breaks the agreement is named.

`dafny verify dfyconfig.toml` checks the project.

## How it is put together

Each component has a specification on values (a state and step functions) and, where the source updates
things in place, a class whose methods are proved to compute those steps.

| modules | component |
|---|---|
| `Base`, `Text`, `Wire`, `Addresses` | records, decimal text, overlay addresses |
| `Allocator`, `IPAllocation` | the IP allocator, on values and as an object |
| `Acl`, `AclEdits`, `AclStore` | the member list and its edits; the store with its three indexes |
| `Json`, `JsonText`, `CanonForm`, `CanonJson`, `JsonGrammar` | canonical JSON: printer, decoder, the form of the bytes, every way of writing a value, the buffer writer, the decoder's language |
| `Signing`, `Admission` | ideal signatures, certificates, leases, join attestations |
| `DeviceState`, `Addressing`, `Peering`, `Membership`, `Reapply`, `Announcements`, `LeaseRecovery` | a push, and what it does to addresses, peers, membership |
| `Grounds`, `PushGrounds`, `Provenance` | on whose signed word each part of a push is accepted, and that everything in the ACL has such grounds at every moment |
| `RefusedPushes` | what a push that is not applied leaves behind |
| `Provisioning`, `ProvisionFacts`, `Commands`, `Nonces`, `Liveness` | challenge and provision, when they are answered and with what, fail-closed timer |
| `Prefixes`, `AgentRuns`, `AgentProtocols`, `AgentLiveness`, `StrayPeers` | runs: what holds at every moment, and the exact events that end it |
| `SavedAcl`, `Startup`, `StartupAgreement`, `Restarts`, `Lives` | the ACL file, restarts, and whole lives |
| `Scenarios`, `Witnesses`, `LifeWitnesses` | runs and lives from a fresh agent in which those events happen |
| `TunnelHandlers`, `AgentStartup` | the handlers and startup as they run |
| `Firewall`, `FirewallManager`, `Reachability`, `AppAccess`, `GrantDrift`, `LifeGrants`, `Confinement` | the rule compiler, its installation, and who reaches what, when |
| `TokenBucket`, `BucketService`, `RateLimiters`, `Overlay`, `ProxyRouting` | rate limits, overlay arithmetic, slug and certificate choice |

Signatures are ideal. Whether somebody else's signature verifies is a fixed fact of the environment; the
agent's own key has signed exactly the messages in a log, so a certificate or lease verifies only if it is
in it. Other messages the agent signs (provision transcripts, and bodies with an intent or a timestamp, such
as upstream envelopes and probe answers) may enter the log at any time. That two different bodies never
share signed bytes is not assumed: it follows from the injectivity of canonical JSON. Clocks, nonces, the outcome of each AddPeer and the contents of files are parameters.
Each handler is one atomic step. Automatic induction is off on every lemma, so each proof is the one written.

## Where the code does less than one might expect

Each of these is modelled as the code has it and stated exactly.

- A provision whose AddPeer fails is rolled back with RemoveClient and Release. If a second member has the
  same id and lists the key, that record keeps a released address (`RunAgreementIff`, `NamesakeRun`).
- The same rollback of a key that already is a peer leaves the peer (`RunPeersIff`). Dropping all peers
  walks the ACL, so not even fail-closed removes it (`FailClosedIff`, `StrayStays`, `StrayRun`).
- A rollback is not saved. A restart before the next save brings the client back, and its peer; only if no
  active member of the ACL file lists the key does it clear a stray peer (`RestartClearsStrayIff`,
  `StrayBackLife`).
- Provisioning does not refresh firewall grants: they stay those of the last applied push or restart
  (`RunGrantsIff`, `LifeGrantsIff`, `LifeReachability`, `DriftRuns`).
- A suspended member can still provision and gets a peer until the next push (`ProvisionedWantedIff`,
  `SuspendedRun`).
- The comment in reconcilePeers calls the ACL authoritative over a stale allocation file. That holds if and
  only if the allocation file binds no address in the ACL file to another key (`RestartAgreementIff`,
  `StaleFileLife`, `UnsavedRollbackLife`). With two members of one id, renumbering writes the second's client
  into the first (`RecordsSettleIff`, `RenumberedLife`).
- AddClient for an unknown member strips other members' clients and leaves the indexes as they were
  (`UnknownMemberStaleness`, `StalenessExample`).
- MarkUsed can move a binding and leave the old address used without an owner (`OnlyMarkUsedMoves`).
- A refused push may leave new bindings in the allocator (`RefusedAllocIff`, `RefusedRun`).
- A firewall rebuild that fails, though removing works, leaves no chain in either family and `enabled` set, and
  the agent only logs it. A later push with the same grants does not repair it; the watchdog does (`ConfinedIff`,
  `SameGrantsDoNotMend`, `TickMends`, `FallenLife`). More than eight stray jumps make it fail until they are
  gone. The watchdog looks at the INPUT jumps only.
- MarshalRaw ignores anything after a trailing closing bracket or brace (`TrailingData`). Keys are sorted
  bytewise, not by the UTF-16 order of section 3.2.3 of RFC 8785; the model proves the code's order.
- A registered suffix need not be self-normalising (`NotAllRegisteredAreSelfNormal`).

## Model

| member | source | states |
|---|---|---|
| `Lives.LifeOfAgent` | internal/agent/agent.go:284-308 | The whole life of a paired agent, any number of restarts with any events between them. At every moment every admin key is the pin and every other member was vetted. The generation never goes down between any two moments. Every keyed client holds the address bound to its key throughout if and only if no moment is a rollback onto a namesake or a restart from an allocation file that gives an address in the ACL file to another key; the ACL file then lists every client and agrees with some sound allocator throughout. Every peer is an ACL client at its address as well if and only if in addition no moment is the rollback of a key that already is a peer. |
| `Lives.LifeAgreementIff` | internal/agent/agent.go:1070-1137 | The first equivalence, and what it says of the ACL file, from any trusted state in agreement whose file is backed by a sound allocator. |
| `Lives.LifePeersIff` | internal/agent/agent.go:1070-1137 | The second, from such a state with peers in step. |
| `Lives.LifeTrusted` | internal/agent/agent.go:284-306 | Whatever arrives and whatever files it restarts from, a paired agent keeps the membership invariant and a sound allocator at every moment. |
| `Lives.LifeGeneration` | internal/tunnel/devicestate.go:159-181 | Between any two moments of a life the applied generation has not gone down. |
| `Provenance.LifeSourced` | internal/tunnel/devicestate.go:182-346 | At every moment of the life of a paired agent, through any events and restarts, in memory and in the ACL file: every app of the catalogue is one the pinned owner signed for this device; every status is active or what the owner signed for that member; every member's apps are what the owner-signed permissions name in the catalogue, or the whole catalogue for an admin, or what the certificate lists for anybody else; every client key was registered, or asked for in a provision, in a message that verifies under the identity key of a member of that id. |
| `PushGrounds.AppliedIff` | internal/tunnel/devicestate.go:159-411 | A push is applied if and only if it is for this device and not stale, and there are grounds for all of it: each app signed by the pinned owner, each member admitted, its status and permissions signed by the owner, its clients by the member, addresses enough, admins with the pinned key. Signatures, payloads and intents are written out. |
| `PushGrounds.AppliedShows` | internal/tunnel/devicestate.go:182-438 | After an applied push the catalogue is, in order, the signed apps of the envelopes present, and every entry has the status, apps and clients that were signed for it; everything else is copied. |
| `PushGrounds.EntryIff` | internal/tunnel/devicestate.go:212-346 | One member, exactly: which entry, leases and log come out, and when any. |
| `Grounds.AppsIff` | internal/tunnel/devicestate.go:182-200 | The catalogue is accepted exactly if every envelope present is the owner's, with the intent for this device and app, and the app is valid; then it is their apps in order. |
| `Grounds.StatusIff` | internal/tunnel/devicestate.go:283-301 | Without an envelope active; with one exactly the active or suspended that the owner signed for this member. |
| `Grounds.PermissionsIff` | internal/tunnel/devicestate.go:303-331 | With an envelope exactly what the owner-signed ids name, each the last app with the id, in the order of the ids; without one everything for an admin and the certificate's apps for anybody else. |
| `Grounds.ClientsIff` | internal/tunnel/devicestate.go:333-364 | The clients are exactly those with a registration for this id and key signed under the member's own key, in order; a lease counts exactly if this agent signed it for that key, the last one deciding. |
| `Grounds.AdmitIff` | internal/tunnel/devicestate.go:228-276 | An admin needs nothing more; anybody else gets in exactly with the pushed certificate if one is pushed, else with the one on file, each only if this agent signed it for that id and key, else with a join attestation that stands, which is when a new certificate is signed. |
| `Grounds.JoinIff` | internal/tunnel/attestation.go:45-121 | A join attestation stands exactly if owner and invite holder signed it, it is for this device, and it has not lapsed by more than five minutes. |
| `Commands.ChallengeIff` | internal/tunnel/handler.go:313-355 | A challenge is answered if and only if it names a member as signer, carries the challenge intent for it, is at most 120 seconds off the clock and verifies under the key the ACL holds for the last member of that id; then the nonce waits under its correlation id and nothing else changes. |
| `Commands.CommandIff` | internal/tunnel/verify.go:36-99 | The signature check of a command, written out. |
| `Commands.ProvisionIff` | internal/tunnel/handler.go:356-479 | A provision is answered if and only if the challenge it names waits, is at most five minutes old and has its nonce echoed, the request is such a command of that member, a client key is given, there is an address for it, AddPeer succeeds, and the transcript and the lease can be signed. |
| `Commands.ProvisionAnswers` | internal/tunnel/handler.go:398-479 | Then the key is bound, in the ACL under the first member of that id, in the file and a peer, all at the answered address, and the answer is the key, that address, its IPv6 partner, the nonce, the signed transcript of them and a lease of the address to the key that this agent has signed. |
| `AppAccess.ProxyReachability` | internal/acl/store.go:667-699 | Wherever ACL and allocator agree, from the address bound to a key in either family the proxy opens an app exactly if the last member listing the key is active and was granted it, or is an active admin and the device has it. |
| `AppAccess.AppliedPushProxy` | internal/proxy/server.go:133-192 | So in particular right after an applied push. |
| `AppAccess.ProxyAppIff` | internal/acl/store.go:667-699 | By source address, whatever the ACL: the last member there must be active; a member that is no admin gets exactly the first proxied app of that slug among its grants. |
| `AppAccess.CatalogueAppIff` | internal/acl/store.go:702-749 | What the device has under a slug: the first in the catalogue, else the first of the first member granted one; found exactly if there is any. |
| `AppAccess.PortAppIff` | internal/acl/store.go:754-771 | Raw-port apps: the active last member there and the first port app of that slug among its grants. |
| `LifeWitnesses.StaleFileLife` | internal/agent/agent.go:1073-1079 | The excluded restart happens in a life: the file saved at one shutdown, loaded after its address went to another key, leaves ACL and allocator apart, though they agreed up to then. |
| `LifeWitnesses.UnsavedRollbackLife` | internal/tunnel/handler.go:417-422 | It also happens when the agent itself has no client left whose address could be given away: the client was rolled back, and the ACL file still lists it. |
| `SavedAcl.StepBacked` | internal/tunnel/handler.go:417-422 | While addresses agree, every event but a rollback onto a namesake leaves an ACL file that lists every client the agent has and agrees with some sound allocator on its subnet. |
| `SavedAcl.RollbackAddsNone` | internal/tunnel/handler.go:417-421 | A rollback adds no client. |
| `Restarts.ReconcileAgreementIff` | internal/agent/agent.go:1070-1137 | Restarting over an ACL that agreed with the allocator, from an allocation file of any age and with any peers failing to install, every client ends at the address bound to its key if and only if the file binds no client's address to another key. |
| `Restarts.RestartMends` | internal/agent/agent.go:1070-1147 | A restart from an allocation file that steals nothing, whichever peers fail, keeps apps, pin, generation and signatures. Its clients are exactly those of the ACL file, so it loses none and brings back the ones rolled back since the last save; it saves them; and every peer is a client at its address. |
| `Restarts.RestartAgreementIff` | internal/agent/agent.go:284-308 | A restart puts every client at the address bound to its key if and only if the allocation file gives no address in the ACL file to another key. |
| `Restarts.RestartTrusted` | internal/agent/agent.go:284-308 | Whatever the allocation file holds and whatever fails, a restart keeps the membership invariant, in the ACL file too, and an injective allocator. |
| `Restarts.RestartedAlloc` | internal/agent/agent.go:1073-1079 | Afterwards every key of the ACL file is bound to its address there and every other key as the allocation file had it; from the file of a clean shutdown that the ACL file agrees with, the allocator is exactly as it was. |
| `Restarts.RestartKeepsRest` | internal/agent/agent.go:284-308 | A restart takes over pin, catalogue, generation and, to the second, the time of the last applied push; pending challenges are gone and the liveness timer starts anew. |
| `Restarts.RestartedPeersActive` | internal/agent/agent.go:1081-1137 | Whatever the files hold, every peer after a restart is a client of an active member of the ACL file. |
| `Restarts.RestartedPeers` | internal/agent/agent.go:1081-1137 | When no AddPeer fails, the peers are exactly those clients. |
| `Restarts.CleanFile` | internal/wireguard/ip_allocator.go:180-235 | The file a clean shutdown saves restores every binding and steals no address. |
| `AgentRuns.RunAgreementIff` | internal/tunnel/devicestate.go:371-417 | From any state in agreement, under any interleaving of accepted and refused pushes, successful and rolled-back provisions, heartbeats, checks, reaps and other signatures: every keyed client holds exactly the address bound to its key throughout, if and only if no rollback leaves a key with a second member of the same id. |
| `AgentRuns.RunAgreement` | internal/tunnel/devicestate.go:371-417 | From a fresh agent, pushes that list each member id once are enough for it, and member ids stay distinct. |
| `Witnesses.NamesakeRun` | internal/tunnel/handler.go:417-421 | A run from a fresh paired agent in which a rollback breaks the agreement that held up to then. |
| `AgentRuns.RunTrusted` | internal/tunnel/devicestate.go:228-276 | In every reachable state of a paired agent each admin key is the pin and each other member carries a certificate of this agent, minted only for members vetted through an owner-signed chain; the allocator stays sound. |
| `AgentRuns.RunPeersIff` | internal/tunnel/devicestate.go:408-438 | From a state where peers are in step too, addresses and "every peer is an ACL client at its address" hold throughout if and only if the run has neither kind of rollback: onto a namesake, or of a key that already is a peer. |
| `AgentRuns.RunGeneration` | internal/tunnel/devicestate.go:159-181 | From any state and whatever arrives, the applied generation never decreases. |
| `AgentRuns.StepAgreementIff` | internal/tunnel/handler.go:398-421 | One step, exactly: the key/address agreement survives if and only if the event is not a rollback that leaves the key with a second member of the same id. |
| `AgentRuns.StepPeersIff` | internal/tunnel/handler.go:398-421 | One step, exactly: "every peer is an ACL client at its address" survives if and only if the event is not the rollback of a key that already is a peer. |
| `AgentRuns.StepKeepsTrust` | internal/tunnel/devicestate.go:159-474 | Every event keeps the membership invariant and the soundness of the allocator. |
| `AgentRuns.FailClosedIff` | internal/tunnel/devicestate.go:117-128 | When liveness trips, no peer is left if and only if every peer was an ACL client. |
| `StrayPeers.RollbackLeavesStray` | internal/tunnel/handler.go:398-421 | A failed re-provision of a peer whose key no namesake lists leaves a stray: a peer that is no ACL client and has no address. |
| `StrayPeers.StrayStays` | internal/tunnel/devicestate.go:117-128 | A stray peer stays installed through every run that neither pushes nor provisions its key: through pushes, heartbeats and every liveness check, tripping or not. |
| `StrayPeers.RestartClearsStrayIff` | internal/agent/agent.go:1126-1137 | A restart with no failing AddPeer clears it if and only if no active member of the ACL file lists the key. |
| `LifeWitnesses.StrayBackLife` | internal/tunnel/handler.go:417-422 | A life in which it does not: the rollback was not saved, so after the restart the key is a client with a peer again. |
| `Witnesses.StrayRun` | internal/tunnel/handler.go:398-421 | A run from a fresh paired agent that ends with a stray peer after fail-closed has tripped. |
| `AgentProtocols.AnsweredProvision` | internal/tunnel/handler.go:313-396 | In any run, every answered provision consumes an earlier challenge of the same member that it names, at most five minutes old, and echoes its nonce. Challenge and provision each carry their intent, name that member as signer, are dated within 120 seconds, and verify under the key the ACL held for the member at that moment. |
| `AgentProtocols.ChallengeAnsweredOnce` | internal/tunnel/handler.go:356-396 | In any run no challenge is answered twice. |
| `AgentProtocols.NonceRun` | internal/tunnel/handler.go:234-257 | The nonce store of a run is the nonce protocol's run over the projected events. |
| `AgentProtocols.NonceAnsweredOnce` | internal/tunnel/handler.go:313-396 | In any run with fresh nonces no nonce is answered twice. |
| `AgentProtocols.ReapingChangesNothing` | internal/tunnel/handler.go:238-257 | With a monotone clock, at any moment of any run, the agent without any reaping would be in the same state but for expired nonces, and would answer the next challenge or provision the same. |
| `AgentLiveness.WatchStep` | internal/tunnel/devicestate.go:46-116 | What each event does to the liveness timer: marks, checks, and nothing else. |
| `AgentLiveness.DropsExactly` | internal/tunnel/devicestate.go:75-116 | In any run, once applied, a check drops the peers exactly when it is the first since the last mark to come more than 30 minutes after it. |
| `AgentLiveness.DropsExactlyAfterBoot` | internal/tunnel/devicestate.go:75-116 | In a run that starts from a state on disk, until the first mark, a check drops the peers exactly when it is the first late one: past 30 minutes of the stored state and past the cold-start timeout. |
| `AgentLiveness.DropsOncePerMark` | internal/tunnel/devicestate.go:75-116 | In any run there is a liveness mark between two drops. |
| `AgentLiveness.ColdStart` | internal/tunnel/devicestate.go:75-116 | With nothing on disk and nothing applied yet, a check of peers not yet dropped drops them exactly past the cold-start timeout, however fresh the heartbeats. |
| `AgentLiveness.AppliedHasTime` | internal/tunnel/devicestate.go:46-58 | In every state a restarted agent reaches, having applied implies a recorded liveness time. |
| `Addressing.PushKeepsAgreement` | internal/tunnel/devicestate.go:371-417 | Applied, ignored or refused, any push keeps every client at its allocator address. |
| `Addressing.DistinctKeysDistinctAddresses` | internal/tunnel/devicestate.go:371-417 | Under the agreement two keyed clients share an IPv4 address exactly when they are one key, and on a dual-stack overlay likewise IPv6. |
| `Addressing.UnappliedPush` | internal/tunnel/devicestate.go:159-411 | A push that is not applied changes nothing but the allocator, which only gains bindings, and the set of signed messages, which only grows; it is ignored exactly when it is for this device and older than the applied generation, and then changes nothing. |
| `RefusedPushes.RefusedAllocIff` | internal/tunnel/devicestate.go:371-411 | It leaves the allocator unchanged if and only if it fails before addresses are given out, or every client it lists has one, or none is to be had for the first that has not. |
| `Witnesses.RefusedRun` | internal/tunnel/devicestate.go:371-411 | A properly signed push that the pin check refuses after its client has been given an address. |
| `Addressing.GenerationNeverDecreases` | internal/tunnel/devicestate.go:159-181 | No push lowers the applied generation, and an applied one sets it to its own. |
| `Addressing.AssignMembersOk` | internal/tunnel/devicestate.go:371-391 | Address assignment keeps the allocator injective and every binding in it, and, if it succeeds, puts every keyed client at the address bound to its key. |
| `Peering.AppliedPushPeers` | internal/tunnel/devicestate.go:408-438 | If every peer was an ACL client before an applied push, afterwards every peer is, at its allocator address, a client whose last-listing member is not suspended; and exactly those clients are peers when no AddPeer fails. |
| `Peering.InstallMembersOk` | internal/tunnel/devicestate.go:418-438 | The install pass alone: a listed key ends as a peer only if wanted, an unlisted one is left alone, exactly so when no AddPeer fails. |
| `Peering.WantedSimply` | internal/tunnel/devicestate.go:418-438 | When no key is listed by a suspended and an unsuspended member at once, being wanted is just being a client of an unsuspended member. |
| `Membership.PushKeepsTrust` | internal/tunnel/devicestate.go:228-276 | Whatever is pushed, the membership invariant holds afterwards. |
| `Membership.MemberWasVetted` | internal/tunnel/devicestate.go:228-276 | The invariant spelled out: an admin key is the pin; any other member has a certificate for exactly its id and key whose minting checked an owner-signed, unexpired invite for this agent and an acceptance of that key. |
| `Membership.VerifyMembersCertifies` | internal/tunnel/devicestate.go:228-276 | Verifying the members of a push only adds justified signatures, and every member it lets through is certified. |
| `Reapply.ReapplyChangesNothing` | internal/tunnel/devicestate.go:231-276 | After a push with distinct member ids was applied, the same push is accepted at any later time, even with every invite expired, and changes no member, app, binding, pin or signature, nor any peer when no AddPeer fails. |
| `Reapply.AdmitAgain` | internal/tunnel/devicestate.go:231-262 | A member once admitted is admitted again at any time by its stored certificate, with the same result and nothing new signed. |
| `Announcements.AnnouncedWereAdmitted` | internal/tunnel/devicestate.go:454-472 | An applied push sends upstream exactly the certificates of the non-admins it brought without one; each is the one its member now has, names that id and key, and was minted for a vetted member. |
| `Announcements.AnnouncedAgain` | internal/tunnel/devicestate.go:454-456 | A lost message heals: the same push applied again at any later time sends the same certificates. |
| `LeaseRecovery.LeasesRestoreAllocation` | internal/tunnel/devicestate.go:348-391 | From an allocator without bindings and any ACL, an applied push whose clients carry valid leases from one past injective allocation, in any order, binds exactly its clients, each to its past address. |
| `LeaseRecovery.Restored` | internal/tunnel/devicestate.go:348-391 | Such a push is never refused for want of an address. |
| `ProvisionFacts.ProvisionAgreementIff` | internal/tunnel/handler.go:398-421 | A provision keeps the key/address agreement if and only if it is not a rollback of a key that a namesake of the member also lists. |
| `ProvisionFacts.NoNamesakes` | internal/tunnel/handler.go:417-421 | With distinct member ids it never arises. |
| `ProvisionFacts.ProvisionPeersIff` | internal/tunnel/handler.go:398-421 | A provision keeps "every peer is an ACL client at its address" if and only if it is not a failed re-provision of a key that already is a peer. |
| `ProvisionFacts.ProvisionedWantedIff` | internal/tunnel/handler.go:398-421 | A successful provision makes the key a peer; the next push would want it if and only if the member that then lists it last is not suspended: the provisioning one, or a later one of the same id that lists the key. |
| `Witnesses.SuspendedRun` | internal/tunnel/handler.go:398-421 | A run in which a suspended member provisions and gets a peer that the next push removes. |
| `ProvisionFacts.RollbackClears` | internal/acl/store.go:428-511 | RemoveClient after AddClient leaves the key in the ACL exactly if a namesake of the member listed it. |
| `ProvisionFacts.ProvisionKeepsTrust` | internal/tunnel/handler.go:398-479 | Provisioning changes nobody's id, role, key or certificate and signs nothing but a lease and the answer's transcript. |
| `Admission.MintJustified` | internal/tunnel/admittance.go:23-57 | Minting after a successful check of the join attestation yields an admitted certificate that verifies, and keeps the signing log justified. |
| `Admission.CertMeansAdmitted` | internal/tunnel/admittance.go:61-96 | A certificate that verifies against a justified log was minted for a member whose attestation chain was checked. |
| `Admission.LeaseVerifiesIff` | internal/tunnel/iplease.go:51-82 | A lease verifies for a key exactly when it is, field by field, the one this agent mints for that key and its address, and the agent signed it. |
| `Admission.MintedLeaseVerifies` | internal/tunnel/iplease.go:30-50 | A minted lease verifies for its key. |
| `Signing.CertBytesInjective` | internal/tunnel/admittance.go:99-112 | The signed bytes of a certificate determine every field but the signature. |
| `Signing.LeaseBytesInjective` | internal/tunnel/iplease.go:20-26 | The signed bytes of a lease determine device, key and address. |
| `Signing.CertNotLease` | internal/tunnel/iplease.go:20-26 | No lease has the signed bytes of a certificate. |
| `Signing.CertNotOther` | internal/tunnel/admittance.go:99-112 | No other message the agent signs (a digest such as the provision transcript, a body with an intent or a timestamp) has the signed bytes of a certificate. |
| `Signing.LeaseNotOther` | internal/tunnel/iplease.go:20-26 | Nor those of a lease. |
| `Nonces.SuccessAnswersChallenge` | internal/tunnel/handler.go:356-396 | A successful provision answers a verified challenge for the same member at most five minutes old and echoes its nonce. |
| `Nonces.ChallengeUsedOnce` | internal/tunnel/handler.go:356-375 | No challenge is consumed by two successes. |
| `Allocator.RunValid` | internal/wireguard/ip_allocator.go:71-154 | Over any operation sequence the map stays injective, off the reserved addresses and inside the used set. |
| `Allocator.NeverReserved` | internal/wireguard/ip_allocator.go:28-53 | No key is bound to the server, the network or the broadcast address. |
| `Allocator.AllocateLowestFree` | internal/wireguard/ip_allocator.go:71-91 | A known key gets its address back, a new one the lowest free host; it fails exactly when the key is unknown and hosts 2..254 are all used. |
| `Allocator.TryAdoptSafe` | internal/wireguard/ip_allocator.go:121-143 | Adopting never moves a binding or takes an address in use, and is refused exactly when the key is empty, the address is outside or reserved, the key has another address, or the address is taken. |
| `Allocator.OnlyMarkUsedMoves` | internal/wireguard/ip_allocator.go:100-154 | A live binding moves if and only if the step is MarkUsed of that key onto a free in-subnet address; its old address then stays used with no owner. |
| `Allocator.ReleaseExact` | internal/wireguard/ip_allocator.go:146-154 | Release frees exactly the key's own address, which anyone may then adopt. |
| `Allocator.SaveLoadSame` | internal/wireguard/ip_allocator.go:180-235 | Save then Load on the same subnet and server restores the map. |
| `Allocator.SaveLoadOther` | internal/wireguard/ip_allocator.go:180-235 | On another subnet Load yields the empty allocator. |
| `IPAllocation.IPAllocator.constructor` | internal/wireguard/ip_allocator.go:28-53 | Reserves network, broadcast and server address, then holds what Load may make of the file. |
| `IPAllocation.IPAllocator.Load` | internal/wireguard/ip_allocator.go:212-235 | Keeps exactly loadable entries; when two keys claim one address one of them wins. |
| `IPAllocation.IPAllocator.Allocate` | internal/wireguard/ip_allocator.go:71-91 | The search loop computes the allocator step of that name. |
| `IPAllocation.IPAllocator.MarkUsed` | internal/wireguard/ip_allocator.go:100-114 | Computes the allocator step of that name. |
| `IPAllocation.IPAllocator.TryAdopt` | internal/wireguard/ip_allocator.go:121-143 | The scan over the map computes the allocator step of that name. |
| `IPAllocation.IPAllocator.Release` | internal/wireguard/ip_allocator.go:146-154 | Computes the allocator step of that name. |
| `Addresses.TunnelIPv6Injective` | internal/wireguard/server.go:67-80 | On one /24 with a dual-stack server two hosts share their IPv6 partner exactly when they are one host. |
| `AclStore.Store.RebuildIndexes` | internal/acl/store.go:820-839 | Afterwards all three indexes answer like a last-match scan over the members. |
| `AclStore.Store.LookupByTunnelIP` | internal/acl/store.go:586-592 | The indexed answer is the last member holding the address. |
| `AclStore.Store.LookupByMemberID` | internal/acl/store.go:593-597 | The indexed answer is the last member with the id. |
| `AclStore.Store.LookupByEmail` | internal/acl/store.go:842-846 | The indexed answer is the last member with the case-folded email. |
| `AclStore.Store.LookupClientByIP` | internal/acl/store.go:514-525 | A client is found exactly when some member holds the address, and is the first client at that address of the last such member. |
| `AclStore.Store.IsAppAllowed` | internal/acl/store.go:667-699 | Through the index, the decision that ProxyAppIff states in full. |
| `AclStore.Store.IsPortAppAllowed` | internal/acl/store.go:754-771 | Through the index, the decision of PortAppIff. |
| `AclStore.Store.FindAppBySlug` | internal/acl/store.go:702-749 | The two loops find what CatalogueAppIff says. |
| `AclStore.Store.PortGrants` | internal/acl/store.go:785-818 | The grants are exactly those of active members, per client with an IPv4 address, with its TCP and UDP ports. |
| `AclStore.Store.ValidateAdminPin` | internal/acl/store.go:327-344 | Accepts exactly when no pin is set or every admin and owner key equals it. |
| `AclStore.Store.Reconcile` | internal/acl/store.go:269-320 | Refused exactly on a pin violation, with nothing changed; else swaps members and apps and reports, in order, exactly the removed members and app ids and, without duplicates, exactly the old client keys absent from the new set. |
| `AclStore.Store.ReplaceAll` | internal/acl/store.go:229-238 | Replaces the members exactly when the pin check passes, indexes exact. |
| `AclEdits.UpsertMeans` | internal/acl/store.go:349-392 | A new id is appended as it is; else the entry replaces the first of its id, whose clients it keeps if it lists none, while a client listed again takes what it leaves blank, but the IPv6 address, from the last earlier one of its key; nobody else changes. |
| `AclEdits.AddClientMeans` | internal/acl/store.go:428-484 | A blank key is refused; else every member of another id loses, in place, exactly the clients with that key or address, and the first member of that id gets the record, merged into its first client of that key or appended; it succeeds exactly if there is one. |
| `AclEdits.RemoveClientMeans` | internal/acl/store.go:488-511 | The first member of that id loses exactly the clients of that key. |
| `AclEdits.RedefineMeans` | internal/acl/store.go:530-558 | A granted app becomes the last new definition of its id, or stays. |
| `AclEdits.WithoutAppMeans` | internal/acl/store.go:560-584 | Exactly the apps of that id go, the rest in order. |
| `AclEdits.EmailKeyIs` | internal/acl/store.go:842-846 | E-mail addresses are compared without surrounding blanks and in small letters. |
| `AclStore.Store.UpsertMember` | internal/acl/store.go:349-392 | Refused exactly on a pin violation; else the first member of that id is replaced or the entry appended; its old clients stay if the new entry lists none, and a client listed again inherits what it leaves blank, except the IPv6 address; indexes exact. |
| `AclStore.Store.AddClient` | internal/acl/store.go:428-484 | Strips the key and the addresses from other members, then updates or appends; indexes exact on success, untouched on failure. |
| `AclStore.Store.RemoveClient` | internal/acl/store.go:488-511 | Removes the key from the first member of that id, reports whether it was there, indexes exact. |
| `AclStore.Store.RemoveMember` | internal/acl/store.go:612-623 | Removes the first member of that id, indexes exact. |
| `AclStore.Store.DropMembersFailing` | internal/acl/store.go:627-646 | Keeps exactly the members that verify and reports exactly the others, each in order; indexes exact though rebuilt only if somebody was dropped. |
| `AclStore.Store.SetAllowedApps` | internal/acl/store.go:396-407 | Replaces the grants of the first member of that id. |
| `AclStore.Store.SetMemberStatus` | internal/acl/store.go:411-423 | Sets the status of the first member of that id and returns its clients. |
| `AclStore.Store.SetAppDefinitions` | internal/acl/store.go:530-557 | Upserts the catalogue and mirrors the new definitions onto every grant of the same id; indexes stay exact without a rebuild. |
| `AclStore.Store.RemoveAppByID` | internal/acl/store.go:560-583 | Removes the app everywhere and counts the member-level removals; indexes stay exact without a rebuild. |
| `AclStore.Store.SetPinnedAdminPublicKey` | internal/acl/store.go:152-166 | Sets the pin exactly if the key has the right size and none is set. |
| `AclStore.Store.ClearPinnedAdminPublicKey` | internal/acl/store.go:167-175 | Clears the pin and nothing else. |
| `AclStore.Store.Load` | internal/acl/store.go:72-108 | The members are those of the file, indexes exact. |
| `Acl.PutAppsFinds` | internal/acl/store.go:530-557 | After the upserts the catalogue finds the last new definition of an id, as the mirrored grants do, else what it found before. |
| `Acl.AppsDoNotMatter` | internal/acl/store.go:530-583 | Edits of apps alone move no lookup, for any address, id or email. |
| `Acl.UnknownMemberStaleness` | internal/acl/store.go:436-451 | AddClient for an unknown member strips clients without rebuilding. The id and email indexes it leaves are exact; the address index is if and only if every address's last holder keeps a client at it. |
| `Acl.StalenessExample` | internal/acl/store.go:436-451 | One member with one client is enough for a stale index. |
| `TunnelHandlers.Handlers.HandleDeviceState` | internal/tunnel/devicestate.go:159-474 | The handler, with its loops over members, clients and apps, computes the push step, firewall grants included, whose acceptance AppliedIff states and whose result AppliedShows; it hands out for sending exactly the announced certificates of an applied push and nothing otherwise. |
| `TunnelHandlers.Handlers.VerifyAll` | internal/tunnel/devicestate.go:228-346 | The verification loop computes the entries that EntryIff states, with their leases, signatures and announcements, stopping at the first failure. |
| `TunnelHandlers.Handlers.AssignAll` | internal/tunnel/devicestate.go:371-391 | The assignment loops compute the specified addresses, keeping the bindings made before a failure. |
| `TunnelHandlers.Handlers.Swap` | internal/tunnel/devicestate.go:403-417 | Replaces the ACL and drops peer and address of exactly the disappeared clients. |
| `TunnelHandlers.Handlers.InstallAll` | internal/tunnel/devicestate.go:418-438 | The install loops compute the specified peer table. |
| `TunnelHandlers.Handlers.Challenge` | internal/tunnel/handler.go:313-355 | Computes the challenge step that ChallengeIff states. |
| `TunnelHandlers.Handlers.ProvisionClient` | internal/tunnel/handler.go:356-479 | Consumes the nonce, installs or rolls back, signs lease and transcript: the provision step that ProvisionIff and ProvisionAnswers state. |
| `TunnelHandlers.Handlers.VerifyCommand` | internal/tunnel/verify.go:148-163 | Accepts exactly the commands of CommandIff. |
| `TunnelHandlers.Handlers.ReapNonces` | internal/tunnel/handler.go:238-257 | Deletes exactly the entries older than the limit. |
| `TunnelHandlers.Handlers.HeartbeatAck` | internal/tunnel/devicestate.go:542-556 | Marks liveness exactly for an ack of the applied generation. |
| `TunnelHandlers.Handlers.WatchLiveness` | internal/tunnel/devicestate.go:75-116 | The check, and the drop of all peers when it trips. |
| `AgentStartup.Start` | internal/agent/agent.go:280-308 | Startup, from the files, computes the restart step of the state machine. |
| `AgentStartup.Reverify` | internal/agent/agent.go:284-306 | With a pin, keeps exactly the members whose certificate re-verifies, or who are admins, and the file follows. |
| `AgentStartup.Reconcile` | internal/agent/agent.go:1070-1147 | The loops of reconcilePeers compute the specified members, allocator, peers and grants; it saves only if it did something, and the file is right in any case. |
| `Startup.KeepCertifiedExact` | internal/agent/agent.go:284-306 | Re-verification keeps a member of the file exactly if it is certified. |
| `Startup.CertifiedSurvive` | internal/agent/agent.go:284-306 | An ACL the agent wrote itself loses nobody. |
| `Startup.LoadedMembersWereVetted` | internal/agent/agent.go:284-306 | Whatever the file held, a non-admin that survives was vetted for its own id and key. |
| `Startup.ReconcileSound` | internal/agent/agent.go:1070-1137 | Whatever the files held and whatever fails, startup leaves an injective allocator. |
| `StartupAgreement.StartupSettles` | internal/agent/agent.go:1070-1137 | With each key listed once, in-subnet addresses distinct, none given by the file to another key, and no failing step: every active client ends with an in-subnet binding that is its peer's address, its old address if that was in the subnet. Its record says so, unless a member with the same id comes earlier, which then gets the new record while the old one stays. Other records are untouched, nothing else is added, and an in-subnet address of a suspended client stays bound to it. |
| `StartupAgreement.RecordsSettleIff` | internal/agent/agent.go:1105-1124 | So every active client's own record is at its binding if and only if no client that has to be renumbered has an earlier namesake of its member. |
| `LifeWitnesses.RenumberedLife` | internal/agent/agent.go:1105-1124 | A push of two members with one id and a restart on another overlay: the client is bound and installed there, its own record keeps the old address, and the first member is given a record. |
| `Firewall.InputMeaning` | internal/firewall/firewall.go:96-135 | First match over the compiled INPUT chain decides every packet and accepts exactly return traffic, ICMP, allowed proxy TCP ports and what the ACL grants. |
| `Firewall.ForwardMeaning` | internal/firewall/firewall.go:137-149 | The FORWARD chain accepts exactly what the ACL grants. |
| `Firewall.ChainsMean` | internal/firewall/firewall.go:96-149 | The compiled chains decide every packet by the grants they were compiled from. |
| `Firewall.GrantsMean` | internal/acl/store.go:785-818 | The emitted grants accept a packet exactly when some active member owns its source on a client with an IPv4 address and has a port app of that port and class. |
| `Firewall.AllowedPortAppIsOpen` | internal/acl/store.go:751-771 | A valid port app that IsPortAppAllowed approves for a source is open to it in one family's table. |
| `Firewall.GrantedIffHolderPermits` | internal/acl/store.go:751-818 | For an address only one member holds, granted means exactly that the index's member is active, sends from it and permits the port. |
| `Reachability.AppliedPushReachability` | internal/tunnel/devicestate.go:439-447 | Right after an applied push, in either family, a new TCP or UDP packet from a bound client's address passes INPUT exactly if it is for a proxy port or an active member lists that key and has a port app for it, and FORWARD exactly in the latter case. |
| `GrantDrift.RunReachability` | internal/tunnel/devicestate.go:439-447 | At any moment of any run, whatever was provisioned since, every packet is decided by the members as the last applied push left them. |
| `GrantDrift.RunReachabilityByKey` | internal/tunnel/devicestate.go:439-447 | By key: a new packet from the address a key had then passes FORWARD exactly if an active member then listed the key and had a port app for it. |
| `GrantDrift.RunGrants` | internal/tunnel/devicestate.go:439-447 | The installed grants are those of the members as the last applied push left them. |
| `GrantDrift.StepGrantsIff` | internal/tunnel/handler.go:398-479 | Where the installed grants are the ACL's, an event keeps them so if and only if it is not a provision, successful or rolled back, that changes which ports are open to its key. |
| `GrantDrift.RunGrantsIff` | internal/tunnel/handler.go:398-479 | Over whole runs: addresses agree and the installed grants are the ACL's throughout, if and only if no event is such a provision or a rollback onto a namesake. |
| `LifeGrants.LifeGrantsIff` | internal/agent/agent.go:1139-1147 | The same over whole lives: no moment that breaks the agreement and no such provision. |
| `LifeGrants.LifeReachability` | internal/agent/agent.go:1139-1147 | Over whole lives, packets are decided by the members as the last applied push or restart left them. |
| `LifeGrants.GrantsOfLife` | internal/agent/agent.go:1139-1147 | The grants at any moment are those of the members as the last applied push or restart left them. |
| `GrantDrift.SameGrantedIff` | internal/acl/store.go:785-818 | Two member lists at one allocator's addresses grant the same packets exactly if they permit the same keys. |
| `Witnesses.DriftRuns` | internal/tunnel/handler.go:398-479 | Runs from a fresh paired agent that drift both ways: a client provisioned since the push without a grant, and a grant left on an address that is free again. |
| `Reachability.GrantedIffKeyPermitted` | internal/acl/store.go:785-818 | Under the agreement, granted by address is exactly permitted by key. |
| `Reachability.OwnsIffListsKey` | internal/acl/store.go:785-818 | Under the agreement, in either family, a member owns the address bound to a key exactly when it lists the key. |
| `Reachability.FamiliesAgree` | internal/agent/agent.go:1151-1164 | A client's IPv4 address and its IPv6 partner are granted the same. |
| `FirewallManager.Manager.Apply` | internal/firewall/firewall.go:68-93 | Whatever fails, success means both tables hold exactly the compiled chains with one jump each. Failure leaves enabled as it was and, when the tools are there and removing works, no rule of ours in either table, and no chain either if at most eight jumps led into each. When no command fails needlessly it succeeds exactly if both tools and an interface are there and no chain has more than eight stray jumps. |
| `FirewallManager.Manager.ApplyTable` | internal/firewall/firewall.go:96-156 | Success leaves exactly the compiled chains in this family; in any case the other is untouched and at most one jump into each chain is added. |
| `FirewallManager.Manager.SetPortGrants` | internal/firewall/firewall.go:159-174 | Grants are remembered in any case; unchanged grants touch nothing; for changed ones an enabled manager ends with exactly their chains if it succeeds and with none in either family if it fails, when removing works. |
| `FirewallManager.Manager.PortGrantRules` | internal/firewall/firewall.go:179-205 | The loops build the specified rules, in order. |
| `FirewallManager.Manager.GrantsEqual` | internal/firewall/firewall.go:207-230 | True exactly for equal grant lists. |
| `FirewallManager.Manager.Teardown` | internal/firewall/firewall.go:280-298 | When commands do not fail needlessly each chain loses up to eight jumps and its rules, and goes if nothing jumps to it any more. |
| `FirewallManager.Manager.WatchdogTick` | internal/firewall/firewall.go:234-266 | A tick touches nothing while both INPUT jumps are there; when one is missing it ends with exactly the compiled chains or with none. |
| `FirewallManager.Manager.Stop` | internal/firewall/firewall.go:269-277 | An enabled manager tears down; a disabled one touches nothing. |
| `AgentStartup.ReconcileFirewallGrants` | internal/agent/agent.go:1151-1164 | The firewall is given exactly the grants of the members, and ends with their chains, with none, or as it was if they are the ones it had. |
| `Confinement.ConfinedIff` | internal/agent/agent.go:1151-1164 | Through any life and any watchdog ticks, the peers are confined throughout if and only if no rebuild fails, where an applied push or a restart rebuilds exactly for changed grants and a tick exactly when the jumps are missing. |
| `Confinement.BeatenIff` | internal/firewall/firewall.go:159-174 | After any push, restart or tick both families are confined or neither has a chain: confined exactly if the rebuild worked or, without one, if they were. |
| `Confinement.ConfinedDecides` | internal/agent/agent.go:1151-1164 | Whenever they are confined, the installed chains decide every packet by the members as the last applied push or restart left them. |
| `Confinement.SameGrantsDoNotMend` | internal/firewall/firewall.go:160-166 | A push whose grants are the ones already given does not bring a fallen firewall back. |
| `Confinement.TickMends` | internal/firewall/firewall.go:234-266 | A watchdog tick whose rebuild works does. |
| `LifeWitnesses.FallenLife` | internal/agent/agent.go:1151-1164 | Beats of a paired agent in which a rebuild fails, the next push with the same grants leaves it so, and a tick mends it. |
| `CanonJson.RoundTrip` | internal/canonjson/canonjson.go:35-132 | Parsing undoes printing on every null-free tree of valid numbers. |
| `CanonJson.PrintInjective` | internal/canonjson/canonjson.go:52-132 | Two such trees with the same canonical bytes are the same tree. |
| `CanonJson.MarshalRawOf` | internal/canonjson/canonjson.go:35-114 | Canonicalising any way of writing a value down, in any surrounding whitespace, yields the canonical bytes of the value, and fails exactly when a null occurs in it. |
| `CanonJson.CanonicalIff` | internal/canonjson/canonjson.go:35-114 | Two null-free documents canonicalise alike exactly when they denote the same value. |
| `CanonJson.KeyOrderFree` | internal/canonjson/canonjson.go:79-102 | Reordering an object's fields changes nothing. |
| `CanonJson.Idempotent` | internal/canonjson/canonjson.go:35-50 | Canonicalising canonical bytes changes nothing, for every accepted text. |
| `CanonJson.TrailingData` | internal/canonjson/canonjson.go:35-50 | Text after a document is refused exactly when it does not begin with a closing bracket or brace. |
| `CanonJson.DecodedNumbers` | internal/canonjson/canonjson.go:35-50 | Every decoded tree holds only valid number literals. |
| `CanonForm.ObjectForm` | internal/canonjson/canonjson.go:88-110 | The bytes of an object: an opening brace, its fields as quoted name, colon and value with commas between, the names ascending, a closing brace. |
| `CanonForm.ArrayForm` | internal/canonjson/canonjson.go:76-87 | The bytes of an array: its items in order with commas between, in brackets. |
| `CanonForm.StringForm` | internal/canonjson/canonjson.go:116-132 | The bytes of a string: quotes around its characters, each as itself or as the one escape the encoder has for it. |
| `Json.LessIff` | internal/canonjson/canonjson.go:93-95 | The order of names: the two share a prefix, and there the first ends and the second does not, or has the smaller code point. |
| `CanonJson.Marshal` | internal/canonjson/canonjson.go:35-50 | The decoder, sorter and writer compute the bytes whose form ObjectForm, ArrayForm and StringForm state. |
| `CanonJson.Buffer.WriteValue` | internal/canonjson/canonjson.go:52-114 | Succeeds exactly on null-free values and appends those bytes. |
| `CanonJson.SortStrings` | internal/canonjson/canonjson.go:88-95 | Returns the one listing of the keys ascending by code point, in the order LessIff states, whatever the iteration order. |
| `JsonText.ParseText` | internal/canonjson/canonjson.go:35-50 | Every document, with any whitespace, escapes and field order, reads back as its value whatever follows it. |
| `JsonGrammar.DecodeIff` | internal/canonjson/canonjson.go:35-50 | The decoder accepts exactly the documents, with any whitespace around and a closing bracket allowed after, and reads each as the value it denotes. |
| `JsonGrammar.SameBytesIff` | internal/canonjson/canonjson.go:35-114 | Two texts canonicalise to the same bytes exactly when the second writes the null-free value the first does. |
| `Overlay.SubnetAtBijection` | internal/overlay/overlay.go:50-64 | subnetAt is a bijection from 0..16383 onto the /24s of 100.64.0.0/10 (section 7 of RFC 6598). |
| `Overlay.V6Recovered` | internal/overlay/overlay.go:65-90 | The IPv6 half is recovered from the IPv4 half. |
| `Overlay.FamiliesCollideTogether` | internal/overlay/overlay.go:50-78 | Two installs share IPv4 exactly when they share IPv6. |
| `Overlay.ValidateIffDrawn` | internal/overlay/overlay.go:253-286 | validate accepts exactly the image of subnetAt. |
| `Overlay.BackfillGivesTheDraw` | internal/overlay/overlay.go:227-244 | A v4-only file migrates to the overlay a draw would have given; whatever is accepted is a draw. |
| `Overlay.HostsPair` | internal/wireguard/server.go:67-80 | Host derivation sends gateway to gateway and the /24 one to one into the paired /64. |
| `TokenBucket.WindowBound` | internal/ratelimit/ratelimit.go:36-58 | In any window, from any state, with any other keys and sweeps, a key is allowed at most capacity plus what the window brings. |
| `TokenBucket.ReapingInvisible` | internal/ratelimit/ratelimit.go:60-71 | If idle buckets have refilled, every request at any moment of any run is decided as if nothing had ever been reaped. |
| `RateLimiters.LimiterBound` | internal/ratelimit/ratelimit.go:36-58 | At most perMinute + perMinute * T / 60 in T seconds. |
| `RateLimiters.LimiterReapingInvisible` | internal/ratelimit/ratelimit.go:60-71 | Reaping buckets idle for 60 s or more changes no decision. |
| `RateLimiters.ProbeBound` | internal/probe/server.go:263-290 | At most 10 + T in T seconds. |
| `RateLimiters.ProbeReapingInvisible` | internal/probe/server.go:97-106 | Reaping after five minutes changes no decision. |
| `RateLimiters.Limiter.constructor` | internal/ratelimit/ratelimit.go:25-33 | A non-positive rate becomes five a minute. |
| `BucketService.RefusalMeans` | internal/ratelimit/ratelimit.go:36-58 | A refusal means that in some window ending then more was granted than capacity less one plus what the window refills. |
| `BucketService.BurstAllowed` | internal/ratelimit/ratelimit.go:36-58 | A full or rested bucket grants the next requests up to its capacity, however fast. |
| `BucketService.PacedAllowed` | internal/ratelimit/ratelimit.go:36-58 | A key that asks no faster than the refill is never refused. |
| `BucketService.LimiterAllows` | internal/ratelimit/ratelimit.go:25-58 | For the limiter of n a minute: a new key, or one idle for a minute, has its next n requests allowed, and any number at least 60/n seconds apart. |
| `BucketService.ProbeAllows` | internal/probe/server.go:263-290 | For the probe: ten requests, after ten seconds of rest, and any number a second apart. |
| `RateLimiters.Limiter.Allow` | internal/ratelimit/ratelimit.go:36-58 | Computes the bucket step, whose grants WindowBound bounds from above and LimiterAllows from below. |
| `RateLimiters.Limiter.Sweep` | internal/ratelimit/ratelimit.go:63-71 | Deletes exactly the buckets idle longer than maxIdle. |
| `RateLimiters.ProbeLimiter.Allow` | internal/probe/server.go:263-290 | The fill counted up is the same bucket counted down, with WindowBound and ProbeAllows; a clock that went back counts as no time passed. |
| `RateLimiters.ProbeLimiter.Sweep` | internal/probe/server.go:98-106 | Deletes exactly the buckets idle longer than five minutes. |
| `ProxyRouting.ExtractSlug` | internal/proxy/server.go:297-329 | For every host header and every suffix list in any order, the sorted longest-first scan is the split of the host part at the first dot: non-empty first label, rest a registered suffix. |
| `ProxyRouting.HostOfName` | internal/proxy/server.go:298-300 | A plain name is its own host part, alone or before a port. |
| `ProxyRouting.SortOrdered` | internal/proxy/server.go:306-313 | The sort puts longer suffixes first and equally long ones in order. |
| `ProxyRouting.HitsIff` | internal/proxy/server.go:314-327 | A suffix hits exactly if it is the non-empty rest after the first dot and the first label is not empty. |
| `ProxyRouting.SlugAndCertificateAgree` | internal/certs/registry.go:192-216 | A host with a slug under a self-normalising suffix that holds a certificate gets that suffix's certificate in the handshake. |
| `ProxyRouting.SelfNormalIff` | internal/certs/registry.go:250-255 | Exactly the lower-case, trimmed names with no wildcard prefix or trailing dot are left alone. |
| `ProxyRouting.NotAllRegisteredAreSelfNormal` | internal/certs/registry.go:127-137 | A registered name need not be self-normalising. |
| `ProxyRouting.Registry.AddSuffix` | internal/certs/registry.go:127-137 | The name is registered and no lookup, by any spelling of any name, changes. |
| `ProxyRouting.Registry.RemoveSuffix` | internal/certs/registry.go:140-153 | The name is gone, no spelling of it finds a certificate any more, and every other name finds what it found. |
| `ProxyRouting.Registry.Install` | internal/certs/registry.go:62-88 | Once the pair is read and matches, every spelling of the name finds the certificate and every other name what it found. |
| `ProxyRouting.Registry.Suffixes` | internal/certs/registry.go:156-170 | Every registered name once, longest first. |
| `ProxyRouting.Registry.FallbackCert` | internal/certs/registry.go:218-241 | The certificate of the first name, longest first, that has one, and none exactly if none has. |
| `ProxyRouting.SlugIff` | internal/proxy/server.go:297-329 | A host has a slug exactly if it is that label without dots, a dot and a registered suffix. |
| `ProxyRouting.PrecedesIff` | internal/proxy/server.go:306-313 | The scan order: longer first, equally long ones by the code point where they differ. |
| `ProxyRouting.NormaliseIs` | internal/certs/registry.go:250-255 | A registered name is the host without surrounding blanks, in small letters, without one leading wildcard label and one trailing dot. |
| `ProxyRouting.SelectedIff` | internal/certs/registry.go:192-216 | Which certificate a server name selects: that of the name without its first label, or where that has none the name's own. |
| `ProxyRouting.Registry.GetCertificate` | internal/certs/registry.go:192-216 | The parent's certificate, else the name's own, else the fallback. |

## Left out

- Process execution, sockets, file I/O and goroutine scheduling: commands and files are steps that succeed or fail, each mutex section is one step. A `wg` command that fails to remove a peer from the kernel is not distinguished from one that succeeds, as the server forgets the peer either way.
- Real cryptography, base64 and gzip: ideal functions. A decoded envelope carries its payload and its canonical bytes side by side. The transcript of a provision answer is a fixed-size digest of unknown content.
- Saving: a save that fails, which the source only logs, is not modelled. Pin, apps and generation never differ from what was last saved, so only the member list of the ACL file is kept apart.
- Unpairing, the notification key handlers and pinning during pairing: easy state updates.
- Custom-domain reconcile and ACME issuing, UPnP and NAT-PMP discovery, relay, SMTP, notify server, configuration, CLI: I/O around libraries.
- JSON nesting limits: nesting is unbounded. Strings are sequences of code points, so text that is not valid UTF-8 does not occur.
- Textual IP parsing and printing: addresses are values; text that is no canonical address is kept as text with its prefix.
- Reading certificate files and matching them to a suffix: `Registry.Install` starts after both.
- ExpandLegacy, Derive and Reroll of the overlay: random draws and file writes around the modelled arithmetic.
- Floating point in the limiters: modelled over reals; the bounds are for a monotone clock.
- reconcilePeers iterates over a shallow copy of the member list; the model takes the copy as a value. Where a key is listed by two members the source may therefore leave it with another of them than the model does.
- Peering.AppliedPushPeers: where a key is listed by several members, the last one decides, as in the code; WantedSimply gives the simple reading.
- Lives.LifeOfAgent: restarts stay on the agent's overlay; what a restart on another one does is StartupSettles.
- TunnelHandlers.Handlers.HandleDeviceState: the custom-domain part of the push is not modelled, and a certificate handed out for sending may be lost on the way; the grants are what the firewall callback is given.
