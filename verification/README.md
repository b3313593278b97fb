# Wispers Access, modelled and proved in Dafny

Wispers Access lets a host node (`waserver`) share web apps with guest nodes (the SDK) over
peer-to-peer streams. This project models the parts of it that are hard to get right and
proves what they are for:

- **Membership.** `Ledger` is the host's database of invites and guests. `HostProtocol` and
  `Revocation` are the host as one state machine: accepting, activating, serving and
  revoking connections, interleaved at every await; `RevocationRuns` builds the runs that
  show where a revoke stops short, and `HostRuns` says whom the host serves and whom it turns
  away. `GuestSession` is the other side: how a close code becomes
  a permanent state on the guest's device; `GuestRuns` what its requests, probes and
  refreshes get done.
- **Config replication.** `ShareConfigs` validates a share's config and feeds it to the
  hash; `Fnv1a` is the hash; `EntityTags` its text forms; `SharedApps` the view a guest is
  sent; `ConfigReplication` the reloads, conditional fetches and stored copies.
- **The connection cache.** `ConnectionCache`: a replaceable fill-once cell shared by
  concurrent calls; `ConnectionRuns` why each call ends, and that none waits for ever.
- **Codecs.** `InviteCodes`, `Framing`, `Origins` and `QrTerminal`, each with its inverse.
- **The log follower.** `LogTail`: an incremental reader over rotating files.
- **Stateful helpers.** `Pairing`, `Cookies`, `Secrets` and `Hostnames`.

`Prelude` and `BitOps` hold text, byte and bit helpers.

How things are modelled:

- Objects whose methods update fields are classes, each method tied by its contract to a
  function on values; the properties are then proved about those functions and about runs.
  A protocol whose steps interleave is a step function over events, and a run is any
  sequence of events: one that is not enabled changes nothing. `At(events, k)` is the state
  before event `k`.
- What the network, the clock, the random source and other processes do is a parameter or
  an event. A stream that opens or fails, a close code, a timeout and a database error are
  outcomes chosen by the environment.
- SQLite tables are maps with their key, UNIQUE and NULL rules. A rowid is one above the
  highest there is, so it can be handed out again. SHA-256 is taken to be injective, so a
  secret stands for its hash. JSON is an encoding that decoding undoes.
- Guest numbers are unbounded and cut to 32 bits where the code casts them (`Wrap32`). The
  hash is arithmetic modulo 2^64.

Some of what the documentation suggests does not hold of the code. Each case has a lemma
with the failing input and a lemma that says when it does hold:

- A NUL in a share's name makes two different configs hash alike, so a reload between them
  is lost: `ShareConfigs.NulInNameCollides`, exactly which configs it can happen to
  `ShareConfigs.CollidesExactly`, the lost reload `ConfigReplication.ReloadCanBeLost`.
  Otherwise only a true hash collision does that: `ConfigReplication.LostReloadIsACollision`.
- A refresh that overlaps another one can end well and leave a different config stored:
  `ConfigReplication.OverlapLeavesAnother`. It leaves its own stored exactly if it was sent a
  body or what is stored still has the hash it read: `ConfigReplication.UpToDateExactly`.
- A revoked guest that removes its own row, on a stream of its own, is let in again by
  another invite: `RevocationRuns.RevokedComesBack`, and on the ledger alone
  `Ledger.RemovalForgetsRevocation`. While the row is kept it is refused:
  `Ledger.RevokedIsRefused`.
- A connection that has looked its guest up but not registered yet escapes a complete
  revoke: `RevocationRuns.WindowIsReachable` with `Revocation.TheWindowEscapes`. For numbers
  below 2^31, and a row kept from the write to the lookup, nothing else does:
  `Revocation.OnlyTheWindowEscapes`.
- A guest revoked between its activation and the lookup that follows it is closed with the
  unknown code, not the revoked one: `RevocationRuns.RevokedButToldUnknown`, and for every
  such run `Revocation.RevokedWhileActivating`.
- A guest number of 2^31 or more is registered truncated, so a revoke does not reach its
  connections: `RevocationRuns.LargeNumbersAreMissed`, exactly as
  `Revocation.SweepReachesExactly` says.
- Guest numbers are handed out again, so a guest can be told of another guest's revoke:
  `RevocationRuns.AnotherIsToldRevoked`; when it is its own is `Revocation.ToldOfItsOwnExactly`.
- For the same reason a guest that asks to leave twice can remove another guest's row:
  `HostRuns.LeavingTwiceRemovesAnother`; when it is its own is `HostRuns.SameRowExactly`.

## Model

| member | source | states |
|---|---|---|
| `Ledger.NumberReused` | waserver/src/storage.rs:669-670 | the next guest number is at most a removed one exactly if the removed one was the highest |
| `Ledger.ApplyKeeps` | waserver/src/storage.rs:659-679 | every request keeps the tables consistent: peers, secrets and the invites of rows are distinct, and each row carries its consumed invite's user, name and time |
| `Ledger.RefusalsChangeNothing` | waserver/src/storage.rs:445-484 | every refusal and failure leaves both tables unchanged |
| `Ledger.InvitesOnlyGrow` | waserver/src/storage.rs:378-393 | an invite is never removed, and nothing of it ever changes but its consumed mark, set once |
| `Ledger.ActivatedExactly` | waserver/src/storage.rs:426-510 | a redemption succeeds exactly for a peer's own retry while unrevoked, or for a peer without a row and an unconsumed, unexpired invite |
| `Ledger.RefusedForItsRow` | waserver/src/storage.rs:445-464 | refused as revoked exactly for a revoked row, as a guest already exactly for an unrevoked row bound to another invite |
| `Ledger.RefusedForItsInvite` | waserver/src/storage.rs:466-484 | a peer without a row is refused exactly for an unknown, a consumed or an expired invite, in that order |
| `Ledger.OneGuestPerInvite` | waserver/src/storage.rs:426-510 | in every run, two successful redemptions of one secret name the same peer, number, user, name and activation time |
| `Ledger.ConsumedIffCreated` | waserver/src/storage.rs:487-499 | in every run, an invite is marked consumed exactly if some request created a guest row from it |
| `Ledger.CreatedOnce` | waserver/src/storage.rs:487-499 | no invite creates two rows, and its mark keeps the time of the one redemption |
| `Ledger.RevokedStays` | waserver/src/storage.rs:563-579 | a revoked row that is not removed stays revoked, with its first time, and bound to the same peer |
| `Ledger.RevokedIsRefused` | waserver/src/storage.rs:456-464 | while its row is kept, a revoked peer is refused whatever invite it presents |
| `Ledger.RemovalForgetsRevocation` | waserver/src/guest_api.rs:239-258 | a concrete run in which a revoked peer's row is removed and the peer is activated again |
| `Ledger.StateDb.CreateInvite` | waserver/src/storage.rs:378-393 | inserts the invite under the next rowid, or fails on a repeated secret, as the table function says |
| `Ledger.StateDb.RedeemInvite` | waserver/src/storage.rs:426-510 | one transaction equal to the table function, keeping the tables consistent |
| `Ledger.StateDb.GuestByPeer` | waserver/src/storage.rs:514-524 | finds the peer's row exactly if there is one |
| `Ledger.StateDb.TouchGuest` | waserver/src/storage.rs:539-547 | sets the time last seen of the peer's row and nothing else |
| `Ledger.StateDb.RemoveGuest` | waserver/src/storage.rs:551-560 | deletes the row of that number, or fails if there is none |
| `Ledger.StateDb.RevokeGuest` | waserver/src/storage.rs:563-579 | marks the row revoked, once, or fails if there is none |
| `HostProtocol.Wrap32` | waserver/src/iroh_transport.rs:289-291 | the cast of a guest number keeps it exactly if it fits 32 bits |
| `HostProtocol.InjectedIdentifies` | waserver/src/reverse_proxy.rs:217-225 | at most one identity header, the user's, missing exactly if the HTTP library does not take the id as a value; all other headers as sent |
| `HostProtocol.RequestHead.InjectIdentity` | waserver/src/reverse_proxy.rs:217-225 | the update in place of the header map has that effect |
| `HostProtocol.ActivationRecords` | waserver/src/guest_api.rs:190-230 | an activation that is granted binds the peer to the user the redeemed invite was minted for |
| `HostProtocol.StreamOrigin` | waserver/src/protocol.rs:60-97 | a stream is handled with no identity on the control plane of an activating connection, or with the identity of the guest its connection serves |
| `HostProtocol.StepKeepsGood` | waserver/src/iroh_transport.rs:175-323 | every step keeps every row, connection, stream and forwarded request tied to a redemption by its peer |
| `HostProtocol.IdentityIsRedeemed` | waserver/src/iroh_transport.rs:274-323 | in every run, a forwarded request carries at most one identity header, the user id of an invite its peer redeemed |
| `HostProtocol.NoInviteNoDataPlane` | waserver/src/protocol.rs:60-97 | in every run, a peer that redeemed no invite has no data-plane stream served |
| `HostProtocol.RecordsAreGrants` | waserver/src/guest_api.rs:190-230 | whatever counts as redeemed was granted to that peer by an earlier activation in the run |
| `Revocation.OnlyServedAreRegistered` | waserver/src/serving.rs:254-278 | a connection is registered under a number exactly if it is being served for a guest whose truncated number that is |
| `Revocation.RunIsTidy` | waserver/src/iroh_transport.rs:285-322 | in every run, the registry is exactly the served connections, only those are asked to close, and only they have streams with an identity |
| `Revocation.RevokedIsTurnedAway` | waserver/src/iroh_transport.rs:191-208 | a connection whose lookup follows the revoke's write, while the row is kept, is closed with the revoked code and never has a stream handled |
| `Revocation.RevokedWhileActivating` | waserver/src/iroh_transport.rs:257-263 | one whose lookup after an activation stream follows the write is not served either, and is closed with the unknown code |
| `Revocation.SweepReachesExactly` | waserver/src/serving.rs:305-318 | a sweep asks exactly the served connections whose truncated number is the revoked one |
| `Revocation.RevokeReachesRegistered` | waserver/src/serving.rs:287-292 | before a revoke returns, every connection of the guest registered at the sweep, its number being below 2^31, has been asked to close with the revoked code |
| `Revocation.RevokedCodeIsEarned` | waserver/src/iroh_transport.rs:191-196 | in every run, a guest is told it is revoked only after a lookup found its row revoked or by the sweep of a revoke of the number it is registered under |
| `Revocation.ToldOfItsOwnExactly` | waserver/src/serving.rs:287-292 | a sweep tells a connection of its own row's revoke exactly if its number is not truncated, its lookup came before the write and the row was kept in between |
| `Revocation.RowLivesOnce` | waserver/src/storage.rs:669-670 | in every run, a guest row is later the same row, kept all along, or no row made from its invite exists again |
| `Revocation.UnknownCodeMeansUnserved` | waserver/src/iroh_transport.rs:213-263 | in every run, a guest is told it is unknown only on a connection that was never served, and told nothing else on it |
| `HostRuns.LookupDecides` | waserver/src/iroh_transport.rs:191-206 | the first lookup serves a guest in good standing as its row says, closes a revoked one with that code, hears a stranger out, and closes without a verdict if the database fails |
| `HostRuns.DecisionDecides` | waserver/src/iroh_transport.rs:254-269 | the lookup after an activation stream serves a guest in good standing and refuses a revoked one or a stranger |
| `HostRuns.UnknownCodeIsEarned` | waserver/src/iroh_transport.rs:191-206 | in every run, a connection told unknown, or on the way there, had a first lookup at which its peer had no row |
| `HostRuns.RefusalIsEarned` | waserver/src/iroh_transport.rs:254-263 | in every run, a guest is refused after its activation stream only if it then had no row in good standing |
| `HostRuns.ReturningGuestIsServed` | waserver/src/iroh_transport.rs:191-208 | from every run, a guest with an unrevoked row can come back on a new connection and be served under its number and user |
| `HostRuns.ReturningGuestIsForwarded` | waserver/src/reverse_proxy.rs:123-163 | and have a request forwarded with its own identity, whatever it claimed, its other headers as sent |
| `HostRuns.StrangerIsClosed` | waserver/src/iroh_transport.rs:213-247 | a stranger that opens a data-plane stream, or none in time, is closed as unknown and never served on that connection |
| `HostRuns.ClosedIsUnregistered` | waserver/src/iroh_transport.rs:315-322 | a connection either side has closed is taken off the registry, and no other is |
| `HostRuns.ShutdownReachesExactly` | waserver/src/serving.rs:296-300 | a shutdown asks exactly the connections being served to close |
| `HostRuns.PeerIsGone` | waserver/src/iroh_transport.rs:213-225 | a peer that closes is gone; one that has not opened a stream is let go |
| `HostRuns.RunIsEntitled` | waserver/src/guest_api.rs:66-76 | in every run, only an identified control stream asks to leave, and only reverse-proxy streams have requests forwarded |
| `HostRuns.ServedIsSeen` | waserver/src/iroh_transport.rs:280-284 | a guest about to be served has the time recorded on its row, and on no other |
| `HostRuns.InvitesLastADay` | waserver/src/iroh_transport.rs:134-150 | a minted invite activates a stranger exactly before a day has passed, for the user and name it was minted with |
| `HostRuns.LeavingTwiceRemovesAnother` | waserver/src/guest_api.rs:239-258 | from every run, a guest's second request to leave can remove the row of another, given its number in between |
| `HostRuns.SameRowExactly` | waserver/src/storage.rs:669-670 | two looks at a number find the same row exactly if it was kept in between |
| `Revocation.OnlyTheWindowEscapes` | waserver/src/iroh_transport.rs:285-291 | a connection of the guest (number below 2^31, row kept from the write to its lookup) still served and unasked after the sweep looked it up before the write and registered after the sweep |
| `Revocation.TheWindowEscapes` | waserver/src/iroh_transport.rs:285-291 | from every state with a guest looked up but not registered, the revoke can complete and the connection then serve data-plane streams |
| `RevocationRuns.WindowIsReachable` | waserver/src/iroh_transport.rs:213-291 | from every run, a stranger with a new invite can come to be looked up but not registered |
| `RevocationRuns.IsServed` | waserver/src/iroh_transport.rs:274-323 | from every run, such a stranger can come to be served under its new number and its invite's user |
| `RevocationRuns.RevokedButToldUnknown` | waserver/src/iroh_transport.rs:257-263 | from every run, a stranger can be revoked before the lookup after its activation and closed with the unknown code |
| `RevocationRuns.RevokedComesBack` | waserver/src/guest_api.rs:239-258 | from every run, a guest can be revoked, remove its own row on its own stream and be let in again by another invite |
| `RevocationRuns.AnotherIsToldRevoked` | waserver/src/storage.rs:669-670 | from every run, a guest can be told it is revoked, its row being unrevoked, because it was given the number of a revoked guest before the sweep |
| `RevocationRuns.LargeNumbersAreMissed` | waserver/src/iroh_transport.rs:289-291 | a sweep leaves every connection of a guest with a number of 2^31 or more as it was |
| `Revocation.ServingHandle.RegisterConnection` | waserver/src/serving.rs:254-274 | adds one entry under a new id with the truncated number |
| `Revocation.ServingHandle.UnregisterConnection` | waserver/src/serving.rs:276-278 | removes that entry and no other |
| `Revocation.ServingHandle.AskToClose` | waserver/src/serving.rs:305-318 | asks each connection under the number once, no other, and counts them |
| `Revocation.AwaitCloses` | waserver/src/serving.rs:322-340 | none asked, no wait; otherwise the wait ends at the first poll with none of the number registered or past the deadline, within 40 sleeps |
| `GuestSession.OnlyCodesOneAndTwo` | sdk/src/iroh_transport.rs:308-317 | a close is terminal exactly for application codes 1 (removed) and 2 (revoked), and codes read back as sent |
| `GuestSession.StepKeepsGood` | sdk/src/guest_node.rs:194-232 | the store never knows a terminal state that a running node does not |
| `GuestSession.TerminalIsAbsorbing` | sdk/src/storage.rs:353-363 | once recorded, the share reads removed or revoked for ever, and no request, refresh or probe opens a stream on the transport again |
| `GuestSession.DeadIsAbsorbing` | sdk/src/guest_node.rs:194-210 | from the moment the node is marked dead, before the store knows, no further call reaches the transport until a restart |
| `GuestSession.RestartFindsItDead` | sdk/src/lib.rs:648-660 | after a restart no guest node is ever restored for such a share |
| `GuestSession.OnlyTheHostEndsAShare` | sdk/src/guest_node.rs:213-232 | a recorded state was caused by an application close with its code earlier in the run |
| `GuestRuns.TerminalIsRecorded` | sdk/src/guest_node.rs:194-232 | in every run, a request or probe closed with code 1 or 2 has, once done, the node dead and the share stored and shown as removed or revoked accordingly, unless another task recorded later |
| `GuestRuns.VerdictIsWritten` | sdk/src/guest_node.rs:152-171 | in every run, an answered refresh has, once done, written whether the app is too old, and no terminal state |
| `GuestRuns.OutdatedIsShown` | sdk/src/storage.rs:353-363 | the share shows as outdated or live exactly as the verdict says while no terminal state is stored |
| `GuestRuns.WaitsForTheVerdict` | sdk/src/guest_node.rs:185-188 | in every run, while a probe holds the gate, and it is still at work, no waiting request gets further |
| `GuestRuns.RequestReachesTheTransport` | sdk/src/guest_node.rs:185-210 | from every run that leaves the share live and unprobed, a request or refresh reaches the transport |
| `GuestRuns.RefreshCompletes` | sdk/src/guest_node.rs:152-180 | and a refresh that gets its stream and answer ends with the verdict written |
| `GuestRuns.ProbeRedials` | sdk/src/guest_node.rs:62-96 | a probe that learns nothing final redials exactly a share in recent use that is not dead |
| `GuestSession.GuestNode.RecordTerminalError` | sdk/src/guest_node.rs:213-232 | marks the node dead and stores the state |
| `GuestSession.GuestNode.OpenStreamUngated` | sdk/src/guest_node.rs:194-210 | a dead node answers without the transport; otherwise one call, and a terminal answer is recorded |
| `GuestSession.GuestNode.CheckConnection` | sdk/src/guest_node.rs:62-88 | a probe redials at most once, only a share in recent use that is not dead, and records a terminal answer |
| `Fnv1a.StepIsBijection` | waserver/src/config.rs:442-447 | for each byte, the hash step is a bijection of the 64-bit state, with its inverse given |
| `Fnv1a.StepInjectiveInByte` | waserver/src/config.rs:442-447 | for each state, different bytes give different states |
| `Fnv1a.FoldInjective` | waserver/src/config.rs:442-447 | over any bytes, two states end equal exactly if they began equal |
| `Fnv1a.CommonSuffix` | waserver/src/config.rs:435-452 | a common suffix neither creates nor removes a collision |
| `Fnv1a.OneByteChangesTheHash` | waserver/src/config.rs:435-452 | equally long streams that differ in exactly one byte hash differently |
| `Fnv1a.Vector` | waserver/src/config.rs:435-452 | the hash of no byte and of "a" are the published FNV-1a values |
| `Fnv1a.Hasher.Write` | waserver/src/config.rs:442-447 | folds the bytes and their terminating NUL into the state |
| `ShareConfigs.Parse` | waserver/src/config.rs:120-150 | succeeds exactly on acceptable files, with a validated config of the same name, the parsed apps and the re-encoded certificates in order |
| `ShareConfigs.ParsedAppIsValid` | waserver/src/config.rs:245-298 | an app that parses has a label-safe id and origins obeying the scheme rule |
| `ShareConfigs.IdsAreNames` | waserver/src/config.rs:396-405 | letters, digits, dashes and underscores, 1 to 64, not first or last a dash or underscore |
| `ShareConfigs.UpstreamIsKept` | waserver/src/config.rs:407-432 | `host:port` is kept for ports 1 to 65535, an empty host being localhost, and refused otherwise |
| `ShareConfigs.UpstreamNeedsAPort` | waserver/src/config.rs:412-422 | a text without a colon is no upstream |
| `ShareConfigs.SchemesAccepted` | waserver/src/config.rs:327-337 | an origin is accepted exactly if it is http on a loopback name or https on another |
| `ShareConfigs.ForwardProxyIsKept` | waserver/src/config.rs:300-325 | the origins and the start URL are kept exactly if the URL is on one of the origins |
| `ShareConfigs.AppIsKept` | waserver/src/config.rs:245-298 | a reverse-proxy block is the app it spells, a blank name being the id |
| `ShareConfigs.ForwardAppIsKept` | waserver/src/config.rs:245-298 | so is a forward-proxy block |
| `ShareConfigs.StreamDeterminesConfig` | waserver/src/config.rs:171-194 | NUL-free validated configs have equal byte streams exactly if they are equal |
| `ShareConfigs.NulInNameCollides` | waserver/src/config.rs:171-194 | without NUL-freedom, every config with an app or certificate shares its stream with another validated one |
| `ShareConfigs.CollidesExactly` | waserver/src/config.rs:171-194 | a NUL-free validated config shares its stream with another validated one exactly if it has an app or a certificate |
| `ShareConfigs.ConfigHash` | waserver/src/config.rs:171-194 | the loops feed exactly the config's byte stream to the hash |
| `SharedApps.UpstreamsAreNotSent` | waserver/src/guest_api.rs:153-183 | configs that differ only in upstreams have the same view, but for the hash |
| `SharedApps.ViewSaysWhatIsShared` | waserver/src/guest_api.rs:155-183 | the view has the config's hash, name and certificates, and each app its id, name, kind and mode, a start URL exactly in forward-proxy mode, and origins that parse back in order |
| `SharedApps.ChecksAgree` | sdk/src/forward_proxy.rs:298-304 | for lowercase hosts, the guest's check on the view it was sent admits a target exactly if the host's check on its config does |
| `SharedApps.LoopbackPorts` | sdk/src/loopback_forwarding.rs:38-53 | maps exactly the ports of the share's http loopback origins, each to its distinct hosts, never none |
| `SharedApps.LoopbackOriginsGetAPort` | sdk/src/loopback_forwarding.rs:38-53 | every http loopback origin of a validated config has its port in the map, with its host |
| `SharedApps.PortsAreLoopback` | sdk/src/loopback_forwarding.rs:38-53 | nothing else is in the map |
| `SharedApps.TunnelHost` | sdk/src/loopback_forwarding.rs:165-178 | picks a host of the list, the named one if the list has it |
| `SharedApps.ForwarderTargetAdmitted` | sdk/src/loopback_forwarding.rs:165-178 | every target the forwarder picks is one the host admits |
| `EntityTags.HashTextReads` | wire/src/lib.rs:755-767 | sixteen hex digits read back as the hash |
| `EntityTags.ConditionalIsEquality` | wire/src/lib.rs:739-753 | a guest sending the tag of the hash it knows is told it is current exactly if it is the host's hash |
| `EntityTags.WildcardAndWeak` | wire/src/lib.rs:746-752 | the wildcard matches any hash, and a weak tag as a strong one |
| `EntityTags.ListMatches` | wire/src/lib.rs:746-752 | a list of tags matches exactly if one of them does |
| `EntityTags.TextForm` | wire/src/lib.rs:741-758 | lowercase digits padded to sixteen, in quotes |
| `ConfigReplication.UnchangedExactly` | waserver/src/guest_api.rs:119-136 | 304 exactly to a guest that knows the served hash, otherwise the whole view |
| `ConfigReplication.AcceptedUnder` | waserver/src/serving.rs:177-184 | in every run, a stream is served from the config that was current when the host accepted it, reloads or not |
| `ConfigReplication.StoredIsOneServedView` | sdk/src/storage.rs:242-275 | in every interleaving, the stored hash, name, apps and certificates are together the view of one config the host served |
| `ConfigReplication.UpToDateExactly` | sdk/src/guest_node.rs:152-180 | if equal hashes in the run mean equal views, a refresh that ends well leaves the view served on its stream stored exactly if it was sent a body or what is stored has the hash it read |
| `ConfigReplication.QuietRefreshIsUpToDate` | sdk/src/guest_node.rs:152-180 | so one during which no refresh of the share stores anything always does |
| `ConfigReplication.OverlapLeavesAnother` | sdk/src/guest_node.rs:152-180 | for any two configs that hash differently, an overlapped refresh ends well with the other one stored |
| `ConfigReplication.LostReloadIsACollision` | waserver/src/serving.rs:188-211 | among NUL-free configs a reload keeps the old one exactly if two different streams hash alike |
| `ConfigReplication.ReloadCanBeLost` | waserver/src/serving.rs:188-211 | every config with an app or certificate has a different one whose reload is ignored |
| `ConfigReplication.ValidatedIsStorable` | sdk/src/storage.rs:256-272 | a validated config's app list never violates the guest's table key |
| `ConfigReplication.AppReadsBack` | sdk/src/storage.rs:290-310 | an app's row reads back as the app, kinds and modes included |
| `ConfigReplication.InsertApps` | sdk/src/storage.rs:256-272 | the inserts succeed exactly if the ids are distinct, and then hold each app at its position |
| `ConfigReplication.ShareRow.WriteShareInfo` | sdk/src/storage.rs:242-275 | stores all of the share info, or nothing when an app id repeats |
| `ConfigReplication.ShareRow.ReadApps` | sdk/src/storage.rs:290-310 | returns the apps of the last info stored, in the host's order |
| `ConnectionCache.StepKeepsGood` | sdk/src/iroh_transport.rs:171-298 | every step of every call keeps the cache and all calls consistent: one filler per cell, filled cells never change |
| `ConnectionCache.CellsFillOnce` | sdk/src/iroh_transport.rs:171-181 | in every run, a cell holds at most one connection in its life and never becomes current again once replaced |
| `ConnectionCache.OnlyItsFailureEvicts` | sdk/src/iroh_transport.rs:193-226 | a cell is replaced only by a drop or by a call whose attempt failed on the connection in that very cell, and such a failure always replaces it |
| `ConnectionCache.AttemptsAreBounded` | sdk/src/iroh_transport.rs:230-251 | each open_stream dials at most once and attempts at most twice, never twice on one connection; check_connection never dials |
| `ConnectionCache.NoAttemptAfterTheEnd` | sdk/src/iroh_transport.rs:230-251 | a call that learns the share has ended neither dials nor tries another connection |
| `ConnectionCache.EveryDialBegan` | sdk/src/iroh_transport.rs:171-181 | every connection held was dialled by a call that found its cell empty, at the step on record |
| `ConnectionCache.DropIsABarrier` | sdk/src/iroh_transport.rs:296-298 | a call that starts after a drop never uses a connection whose dial began before it |
| `ConnectionCache.Iroh.CachedConnection` | sdk/src/iroh_transport.rs:184-187 | returns the current cell exactly if it holds a connection |
| `ConnectionCache.Iroh.Evict` | sdk/src/iroh_transport.rs:221-226 | replaces the current cell exactly if it is the failed one, by identity |
| `ConnectionCache.Iroh.DropConnection` | sdk/src/iroh_transport.rs:296-298 | replaces the current cell by a new empty one |
| `ConnectionRuns.WhyItEnded` | sdk/src/iroh_transport.rs:230-251 | every open_stream not cancelled ended on a stream, a terminal answer, a failed dial or a failed second attempt |
| `ConnectionRuns.DeadConnectionIsRetried` | sdk/src/iroh_transport.rs:230-251 | one that found the cached connection dead does not end before it dialled or used a second connection |
| `ConnectionRuns.RetryGoesThrough` | sdk/src/iroh_transport.rs:230-251 | from every run in which a request has just found its connection dead, it can come to use one in another cell |
| `ConnectionRuns.LooksInTheCacheFirst` | sdk/src/iroh_transport.rs:184-187 | a call tries or probes the connection in the current cell if there is one; otherwise open_stream dials and check_connection ends |
| `ConnectionRuns.FailureWasReported` | sdk/src/iroh_transport.rs:193-218 | a call evicts only for a failure it was told of on the connection in that cell |
| `ConnectionRuns.WhyTheCheckEnded` | sdk/src/iroh_transport.rs:256-294 | every check not cancelled found no connection, got its answer, or evicted what it probed |
| `ConnectionRuns.RunHoldsPermits` | sdk/src/iroh_transport.rs:171-181 | in every run, whoever holds a cell's permit to fill it is dialling for it |
| `ConnectionRuns.WaiterIsServed` | sdk/src/iroh_transport.rs:171-181 | so no call waits for ever: from every run, one waiting for a cell can come to use a connection in it |
| `InviteCodes.HexRoundTrip` | wire/src/lib.rs:246-265 | text decodes to some bytes exactly if it is their hex in either case |
| `InviteCodes.Base32RoundTrip` | wire/src/lib.rs:298-313 | unpadded base32 of any length decodes to the same bytes (section 6 of RFC 4648) |
| `InviteCodes.UrlRoundTrip` | wire/src/lib.rs:302-313 | every URL comes back from its lowercase encoding |
| `InviteCodes.IrohRoundTrip` | wire/src/lib.rs:201-215 | every iroh invite comes back from its code, with fields appended and whitespace around it |
| `InviteCodes.ParsedIsEncodable` | wire/src/lib.rs:117-138 | whatever parses has non-empty underscore-free fields, an https backend if any, and keys of the right size |
| `InviteCodes.CodeRoundTrip` | wire/src/lib.rs:116-161 | an invite comes back from its code exactly if it is encodable |
| `InviteCodes.VersionZeroParses` | wire/src/lib.rs:133-135 | codes without a transport tag are read as Wispers Connect invites |
| `InviteCodes.Base32Alphabet` | wire/src/lib.rs:298-313 | the alphabet of section 6 of RFC 4648 |
| `InviteCodes.Base32Vector` | wire/src/lib.rs:298-313 | a test vector of section 10 of RFC 4648 |
| `Framing.OpeningRoundTrip` | wire/src/lib.rs:841-913 | what an opener writes, followed by any bytes, is read as the same opening leaving those bytes, exactly if the preamble fits 65536 bytes; a longer one is refused with its body unread |
| `Framing.FramedReads` | wire/src/lib.rs:890-913 | a framed message that fits decodes to itself and leaves the bytes after it |
| `Framing.OnTheWire` | wire/src/lib.rs:841-899 | the type byte, the length with its most significant byte first, and the JSON |
| `Framing.Sink.Open` | wire/src/lib.rs:849-888 | writes the type byte and the framed preamble |
| `Framing.Source.ReadExact` | wire/src/lib.rs:901-913 | reads exactly the bytes asked for however they are chunked, or fails at the end |
| `Framing.Source.ReadMessage` | wire/src/lib.rs:901-913 | reads one message, refusing a longer declared length before its body |
| `Framing.Source.ReadOpening` | waserver/src/protocol.rs:60-108 | reads the type byte and preamble, for every chunking, as the function on the whole stream says |
| `Origins.PrintParse` | wire/src/lib.rs:657-727 | every origin parses back from its printed form |
| `Origins.PrintInjective` | wire/src/lib.rs:717-727 | different origins print differently |
| `Origins.ParsedOriginIsValid` | wire/src/lib.rs:701-715 | what parses is a lowercase host with a port in range |
| `Origins.PortsByDefault` | wire/src/lib.rs:657-727 | a host without a port has 443 for https and 80 for http |
| `Origins.PortsAsWritten` | wire/src/lib.rs:657-727 | any other port is the one written |
| `Origins.UrlIsOriginAndPath` | wire/src/lib.rs:701-715 | a URL is its origin and what follows; as an origin it may have a lone slash and nothing more |
| `QrTerminal.RenderHalfBlocks` | waserver/src/invites.rs:107-131 | the nested loops produce the half-block lines, half as many as rows, rounded up |
| `QrTerminal.HalfBlocksRoundTrip` | waserver/src/invites.rs:107-131 | read cell by cell, the half-block rendering is exactly the matrix with its quiet zone, light beyond an odd grid |
| `QrTerminal.RenderCells` | waserver/src/invites.rs:136-152 | the nested loops produce one line of cells per row |
| `QrTerminal.CellsRoundTrip` | waserver/src/invites.rs:136-152 | read cell by cell, every module of the matrix with its quiet zone is painted in all its cells |
| `QrTerminal.HalfBlocksShowTheCode` | waserver/src/invites.rs:107-196 | read back, the half-block lines are eight modules wider than the code, show its own modules from column and row 4 on, and are light everywhere else |
| `QrTerminal.CellsShowTheCode` | waserver/src/invites.rs:136-196 | so do the lines of whole cells |
| `QrTerminal.LinesSetTheColours` | waserver/src/invites.rs:107-152 | half-block lines begin by setting black for their glyphs, and every line ends by resetting the colours |
| `LogTail.TurnKeepsInv` | waserver/src/logging.rs:188-208 | each turn of the loop keeps the output equal to the lines read so far and gets closer to the end |
| `LogTail.FollowerLosesNothing` | waserver/src/logging.rs:129-145 | for every schedule of appends, rotations, reads and listings the output is a beginning of all lines in order, and all of them, but the unfinished last one, once the newest file is read |
| `LogTail.FinishedBare` | waserver/src/logging.rs:211-217 | the lines of finished files are the files concatenated, with a newline added to any that lacks its last |
| `LogTail.LinesAndRest` | waserver/src/logging.rs:188-208 | the lines and the unfinished rest are the whole content, in order |
| `LogTail.LinesAreLines` | waserver/src/logging.rs:188-217 | each is text without a newline, and then one |
| `LogTail.Reader.CopyCompleteLines` | waserver/src/logging.rs:188-208 | a pass over fixed contents ends with every queued file read to its end |
| `LogTail.Reader.PickUpRotatedFiles` | waserver/src/logging.rs:229-236 | queues exactly the files after the current one, each once, in order |
| `LogTail.Reader.Poll` | waserver/src/logging.rs:129-145 | one poll brings the follower up to date |
| `LogTail.Reader.Print` | waserver/src/logging.rs:129-145 | without following, prints all lines of all files, unprefixed the files concatenated |
| `Pairing.AcceptedExactly` | sdk/src/pairing.rs:78-97 | the purged table accepts a token exactly if the full history minted it, never saw it presented since, and its lifetime from then has not passed, or its end cannot be represented |
| `Pairing.SpentOnFirstUse` | sdk/src/pairing.rs:90-97 | a token presented once is not accepted again |
| `Pairing.CookieIssuer.MintToken` | sdk/src/pairing.rs:78-87 | purges the expired and adds the token with its expiry |
| `Pairing.CookieIssuer.ConsumeToken` | sdk/src/pairing.rs:90-97 | accepts exactly a live token, and removes it either way |
| `Secrets.ConstantTimeEqIsEquality` | sdk/src/secrets.rs:135-141 | the OR of the byte XORs is zero exactly for equal strings |
| `Cookies.StrippedPairs` | sdk/src/loopback.rs:128-161 | the pairs left are those not passing the criterion, in order, across all headers |
| `Cookies.StrippedPresents` | sdk/src/loopback.rs:112-161 | after stripping, a cookie is presented exactly if it was before and its name does not pass |
| `Cookies.PresentedIsEquality` | sdk/src/loopback.rs:112-124 | a required cookie is presented exactly if some pair has its name and value |
| `Cookies.HeaderPresents` | sdk/src/loopback.rs:112-124 | a header of parts joined by "; " presents `name=value` exactly if that is one of them |
| `Cookies.StrippedTwice` | sdk/src/loopback.rs:128-161 | stripping twice equals stripping once |
| `Cookies.HeaderMap.StripCookies` | sdk/src/loopback.rs:128-161 | the update in place of the header map is that stripping |
| `Hostnames.TakenCandidatesAreFew` | sdk/src/storage.rs:140-168 | distinct candidates that are all taken are no more than the taken hostnames |
| `Hostnames.TooLongStaysTooLong` | sdk/src/storage.rs:140-168 | once a candidate exceeds 63 bytes, so do all later ones |
| `Hostnames.ChosenIsUnique` | sdk/src/storage.rs:140-168 | the specification of the claim has one answer |
| `Hostnames.ClaimSpelledOut` | sdk/src/storage.rs:140-168 | the label if free and at most 63 bytes, else with a dash and the first number from 2 on that makes it so, and the share id only if none does |
| `Hostnames.Store.WriteDedupedHostname` | sdk/src/storage.rs:140-168 | claims the first free candidate that fits, else the share id if free, within one attempt more than there are taken hostnames, the one with the share id included, keeping hostnames distinct |

## Left out

- QUIC, iroh, hyper and TLS: foreign code; only their outcomes appear, as events.
- The Wispers Connect transport: its connection cache is the same algorithm, and its guests live in the hub.
- URL normalisation beyond lowercase `scheme://host[:port]`: punycode, canonical IP forms and user info are the URL library's.
- X.509 and base64 decoding of certificates: an entry either is a certificate, with its base64 text, or is not.
- InviteCodes.DecodeUrl: uppercases ASCII only; the source also accepts the few other characters whose uppercase is made of base32 letters, such as U+017F and U+0131, in a backend field no encoder writes.
- Secrecy, randomness and timing: not functional correctness.
- Leaving a share on the guest's side: it deletes the row and the node, after which nothing here speaks of them.
- The sweep of incomplete join rows at start-up: its predicate does not match the NULL a new row has.
- Interleaving of several shares in one `waserver logs` output: each share has its own reader.
- `recent_invites`, `connected_guests`, status reports and event streams: only easy claims.
- ConnectionCache.CallStep: the values calls return are not kept; which answer a call ended on is what `ConnectionRuns.WhyItEnded` and `WhyTheCheckEnded` say.
- Rowids at the end of the 64-bit range, where SQLite picks at random.
- LogTail.Reader: files that disappear or cannot be opened while followed end the program with an error.
- GuestSession.TerminalIsAbsorbing: writes to the store are taken to succeed, as the property presumes.
- Desktop, mobile and command-line front ends, IPC, daemons and updaters.
