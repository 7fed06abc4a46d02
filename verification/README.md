# Geneza, verified

Geneza is a remote-access control plane: a controller that brokers sessions, agents that
serve them, relays between them, and a bootstrap that updates the agents. Its hard code
is a set of small protocols that must hold up under crashes, lost and repeated messages,
concurrent callers and documents from an untrusted peer. This project models those
protocols in Dafny and proves what they keep, over every input, run or interleaving.

Run `dafny verify dfyconfig.toml` to check the whole project.

## How the models are built

- Code that changes fields in place is a class whose methods are proved equal to a step
  function on a value; whole-run theorems are about that step function. Loops stay loops.
- Protocols are state machines. Each lock-protected section, transaction or system call
  is one step, and steps of different parties interleave freely. Messages once sent may
  be lost, repeated and reordered.
- What the code gets from outside (JSON, MACs, signatures, hashes, letter case, clocks,
  the outcome of a disk write or a health gate) is a parameter or an input. The laws a
  theorem needs of such a function are a predicate in its `requires`.
- Go integers are unbounded here.

| file | component |
|---|---|
| `AuditRecord`, `AuditLines`, `AuditScan`, `AuditLog`, `AuditCrash` | the audit chain, its line framing, scan and repair, its files, and crashes |
| `Grants`, `Broker`, `LiveSession`, `LiveSessionRuns`, `Forwards` | grants and capabilities, grant re-issue, live-session enforcement, forward splices |
| `RehomeProtocol`, `RehomeLoop` | the re-home epochs across the network, and the agent's loop |
| `Signatures`, `Trust`, `TrustRuns`, `TrustConfigs`, `TrustPushes`, `TrustRestarts` | threshold signatures, adoption of trust documents, racing pushes, and restarts |
| `Bootstrap`, `BootstrapRuns` | the self-update supervisor |
| `Affinity`, `Blobs` | stream ownership fencing, and write-once recordings |
| `Sbom`, `SbomOrder`, `Inventory`, `InventoryRuns`, `InventoryCases` | component deltas and the reporting protocol |
| `Dns`, `DnsAnswers`, `Ecosystem`, `ShellQuote`, `EscapeSequences` | resolver, ecosystem keys, shell quoting, escape detector |

## Where the code falls short of a stated promise

Each of these has a lemma that exhibits the failure and one that says exactly when the
promise holds.

- Audit: `AppendWS` accepts a record of 4 MiB or more that the scanner refuses
  (`OversizedRecordBricksLog`, `OpenedDecides`). `OpenAudit` checkpoints a record a killed
  process left unsynced, so a later power loss can strand the log
  (`UncleanOpenCanStrandLog`, `RunRecoversExactly`).
- Trust: a comment says a pinned node never takes a legacy config, but a direct
  `ClusterConfig` message is not gated on the pin (`ConfigReplacesGrantKeys`,
  `AnchoredUnlessConfig`), and a pushed one is tested before the adopt lock is taken, so
  the other caller can pin in between (`LegacyPushOvertakesPin`,
  `AnchoredThroughoutExactly`). Anchors that rotate the signer set are adopted on the old
  set's signatures, but a restart checks them against their own set
  (`RotationStrandsRestart`, `RestartExactlyWhenSelfSigned`).
- Bootstrap: with no floor set, a build dated before 1970 is committed below the floor
  (`UnsetFloorAdmitsOlderBuild`, `CommitRespectsFloor`). A manifest for the running
  version, served under another desired version, replaces the running binary without a
  gate (`CurrentBinaryCanBeReplaced`, `CurrentBinaryUntouched`).
- Affinity: releasing deletes the row, so epochs restart and a stale teardown can match
  the live owner's row (`StaleTeardownStrandsLiveOwner`, `SupersededReleaseExactly`) or,
  at any controller, its services (`StaleTeardownClearsLiveServices`,
  `OlderDisturbsServicesExactly`); services a dead controller left can keep new ones out
  (`LeftoverServicesBlockNewOnes`, `LatestAdvertisesExactly`).
- Inventory: the agent encodes with the subject `node` and the controller re-encodes with
  the node's id and from rows that drop the source package, so deltas are rejected on
  other nodes (`FirstDeltaIsDropped`, `DeltaOutcomeExactly`). Document and rows are
  written in two transactions by concurrent workers, and an upload of external components
  carries the agent's rows through in two more, so document and rows can be of two sets
  (`CrossedWritesMixSets`, `UploadRestoresOldRows`, `RowsAgreeExactly`). A request for a
  full that arrives inside a report cycle is forgotten (`RequestCanBeForgotten`,
  `RequestHeededExactly`). `Apply` is not the inverse of `Diff` on lists with conflicting
  duplicates (`DuplicatesAreLost`, `ApplyUndoesDiffExactly`).
- Ecosystem: applicability is not transitive through an ecosystem without a release
  (`UnscopedBreaksTheChain`, `PreorderExactlyWhenScoped`).
- Re-home: a comment says an ended session is never resurrected, but the state is tested
  in one transaction and the bump made in another, so a request checked before a
  revocation is minted after it (`RevokedSessionIsReissued`, `EndedMintsExactly`,
  `EndedStaysEnded`).
- Session: the fallback report can itself be swallowed, so a run can end with no terminal
  event (`RunCanEndSilently`, `SilentRunExactlyWhen`).
- Deltas: the signature covers one copy of the caps, and the copy beside it on the wire is
  the one gated and enforced (`WireCapsOverrideSigned`, `EnforcedAreSignedExactly`).
- Forwards: a splice gated just before a delta revokes its target and tracked just after
  that delta's tear goes on running (`RevokedForwardCanRun`,
  `RevokedForwardRunsExactlyWhen`).
- DNS: a comment promises NXDOMAIN for unknown names in a zone; a zone's own name and a
  name with more than one label in front of the zone are refused
  (`UnknownNamesCanBeRefused`, `UnknownNameExactly`).

Two comments describe something the code does not do, and the model follows the code.
`ReissueGrant` is said to mint nothing for a request behind the record, but it mints a
fresh grant, and its bump stays when no relay is known (`LateRequestMintsExactly`). The
grant of a live session is said not to change, but a re-home replaces it
(`RefreshLiveGrant`).

## Model

| member | source | states |
|---|---|---|
| AuditRecord.ValidChainExtend | internal/controller/audit.go:42-51 | a record extends a valid chain exactly when it names the last hash, the next number and its own MAC |
| AuditRecord.LastHashPinsChain | internal/controller/audit.go:42-51 | with an injective MAC the last hash of a valid chain determines every record before it |
| AuditLines.LinesThenTail | internal/controller/audit.go:412-462 | framing loses nothing: a file is its terminated lines and then one tail without a newline |
| AuditLines.LinesOfJoined | internal/controller/audit.go:359-407 | splitting joined lines gives the lines back, with any tail after them |
| AuditLines.TerminatedIsLongest | internal/controller/audit.go:412-462 | the terminated part is the longest prefix that ends in a newline |
| AuditLines.CutLines | internal/controller/audit.go:412-462 | a file cut at any byte keeps a prefix of its lines |
| AuditScan.FindNewline | internal/controller/audit.go:412-440 | the byte search stops at the first newline |
| AuditScan.ScanAuditFile | internal/controller/audit.go:359-407 | the scanning loop computes the walk over the scanner's tokens, with the error of the first line that fails |
| AuditScan.RepairTornTail | internal/controller/audit.go:412-462 | the repair loop leaves the terminated part of a file whose terminated lines chain, and refuses any other file untouched |
| AuditScan.Examine | internal/controller/audit.go:383-396 | a record passes exactly when it links to the running hash and number with its own MAC |
| AuditScan.VerdictMeans | internal/controller/audit.go:359-440 | the error a line is refused with tells what is wrong: too long, not a record, not linked, out of number, or not tagged with the key |
| AuditScan.WalkAccepts | internal/controller/audit.go:359-462 | a reader accepts a list of lines exactly when all decode (and, for the scanner, fit) and the records continue the chain; it then stands on the chain's end |
| AuditScan.RepairKeepsEveryCompleteLine | internal/controller/audit.go:412-462 | repair succeeds exactly on files whose complete lines are a chain, and leaves the longest newline-terminated prefix: no complete line is ever cut |
| AuditScan.ScannerAgreesWithRepairer | internal/controller/audit.go:359-462 | after a repair the independent scanner accepts the file exactly when every line fits its buffer, and then ends on the same hash and number |
| AuditScan.SameHashSameRecords | internal/controller/audit.go:359-407 | two files the scanner accepts with one last hash hold the same records |
| AuditLog.OpenedDecides | internal/controller/audit.go:84-128 | a log opens exactly when its complete lines are a chain, each fits, and the checkpoint is behind it or names its last record |
| AuditLog.CutBelowCheckpointIsRefused | internal/controller/audit.go:104-117 | a log cut at any byte opens against its checkpoint only if every record survived |
| AuditLog.CheckpointPinsLog | internal/controller/audit.go:104-117 | a log that opens against a chain's checkpoint is longer than that chain or holds exactly it |
| AuditLog.OversizedRecordBricksLog | internal/controller/audit.go:173-216 | an appended record past the scanner's buffer keeps the log from ever opening |
| AuditLog.RetryAfterFailedSyncBricksLog | internal/controller/audit.go:198-206 | an in-process retry after a failed sync whose bytes landed keeps the log from ever opening |
| AuditLog.OpenAudit | internal/controller/audit.go:84-128 | opening decides as specified; success leaves the terminated file and the rewritten checkpoint and yields a log standing on the chain, failure costs at most the torn tail |
| AuditLog.Audit.AppendWS | internal/controller/audit.go:173-223 | an append adds one linked record to file, memory and checkpoint; a failed write or sync leaves memory alone and the file between its old and new bytes; a failed checkpoint keeps the record |
| AuditLog.Audit.Verify | internal/controller/audit.go:226-241 | verification passes exactly when the tokens of the file fit and decode to a chain that the configured checkpoint does not outnumber, and counts that chain |
| AuditLog.Audit.VerifyCached | internal/controller/audit.go:244-261 | within the time to live the verdict is the rescan of the files as they were at the last scan, and otherwise of the files now |
| AuditLog.RescanDecides | internal/controller/audit.go:226-241 | verification passes exactly when the file's tokens fit and decode to a chain that a readable configured checkpoint does not outnumber; it counts that chain, or the records ahead of the first bad line |
| AuditLog.CutBelowCheckpointFailsVerify | internal/controller/audit.go:226-241 | a log cut at any byte passes verification only if at most the last line was torn and the rest of it still reads as a record, and a log cut between lines only whole |
| AuditCrash.StepKeeps | internal/controller/audit.go:84-223 | every file operation of an append or an open, every write that stops inside a line, every kill and every power loss keeps the crash invariant |
| AuditCrash.RecoveryIff | internal/controller/audit.go:84-223 | in every state of every run an open succeeds exactly when the checkpoint is covered by the surviving lines and these fit, and it then recovers a prefix holding every acknowledged record |
| AuditCrash.CrashRecovery | internal/controller/audit.go:84-223 | for every run whose power losses strike only checkpoints of durable records, the next open succeeds and recovers every acknowledged record |
| AuditCrash.RunRecoversExactly | internal/controller/audit.go:84-223 | a run with fitting records recovers in all its states exactly when each power loss spares the records the checkpoint counts |
| AuditCrash.KillsNeverStrand | internal/controller/audit.go:84-223 | in every run of appends, torn writes, kills at any point and opens, with no power loss, the log opens again and recovers every acknowledged record |
| AuditCrash.AckedAreCheckpointed | internal/controller/audit.go:173-223 | in every run with a checkpoint configured, through every crash, the checkpoint counts every acknowledged record |
| AuditCrash.CleanOpensAreSafe | internal/controller/audit.go:84-128 | power losses are safe in a run whose opens find no unsynced complete line |
| AuditCrash.PowerLossSurvivedExactly | internal/controller/audit.go:84-223 | in every state of every run with fitting records, the log survives a power loss at any cut exactly when the checkpoint names no record that is not durable |
| AuditCrash.UncleanOpenCanStrandLog | internal/controller/audit.go:84-128 | a kill, an open and a power loss after which the log does not open |
| Grants.DowngradeMeansNoWider | internal/types/sessionpolicy.go:63-108 | the downgrade gate accepts exactly the capability sets that permit no operation the grant's fields do not authorize |
| Grants.ImpliedCapsMean | internal/types/sessionpolicy.go:63-75 | the implied capabilities permit exactly the operations the grant's own fields authorize |
| Grants.RefusalMeans | internal/types/sessionpolicy.go:77-108 | a refused downgrade names something the grant does not authorize |
| Grants.SameScopeSameCaps | internal/types/sessionpolicy.go:63-75 | a grant changed only in rendezvous fields, validity and shell-to-attach implies the same capabilities |
| Grants.ClampKeepsScope | internal/agentd/offer.go:64-72 | the agent's lifetime ceiling keeps a grant in scope and bounds its lifetime |
| Broker.ExcludeRelayAddr | internal/controller/broker.go:254-268 | the filter drops the dead address in order and gives the floor back whole when nothing else is listed |
| Broker.ExcludeRelayCandidate | internal/controller/broker.go:272-283 | the filter drops exactly the dead relay's candidates, in order |
| Broker.RefusedExactly | internal/controller/broker.go:165-188 | exactly the sessions in use with a scope and a 32-byte node key are re-homed; pending, ended and revoked ones are refused, and each error has its own reason |
| Broker.MintGrant | internal/controller/broker.go:203-247 | step-by-step minting gives the recorded grant with only the re-minted fields replaced |
| Broker.MintedKeepsScope | internal/controller/broker.go:165-248 | a minted grant keeps the scope, carries the node's key, the new validity window, the surviving relays and candidates and no dead one while another is known, and attaches exactly a detachable shell with a host session |
| Broker.ReissueKeepsScope | internal/controller/broker.go:165-248 | every grant a re-issue sends is rebuilt from the scope it saw recorded, and the bump leaves the recorded scope as it is |
| Broker.LateRequestMintsExactly | internal/controller/broker.go:189-247 | a request behind the record leaves the record alone but still gets a fresh grant; nothing is minted exactly when no relay is known, and the bump then stays |
| Broker.Store.CheckRehome | internal/controller/broker.go:166-187 | the checks pass exactly for a session in use with a scope and a 32-byte node key, and give the record and key as seen |
| Broker.Store.BumpAndMint | internal/controller/broker.go:189-247 | a later transaction bumps the record as it then is, once per generation, and mints from the record as it was seen |
| Broker.Store.ReissueGrant | internal/controller/broker.go:165-248 | a re-issue back to back; a grant goes out or the store changes only for a session in use, and one that is pending, ended or revoked is refused and left alone |
| LiveSession.Live.constructor | internal/agentd/worker.go:271-287 | a registered session has no caps and the grace deadline |
| LiveSession.Live.ApplyLease | internal/agentd/lease.go:142-167 | a bound lease with a newer epoch sets epoch and deadline; any other changes nothing |
| LiveSession.Live.BeginDelta | internal/agentd/lease.go:173-212 | a delta's first section and gate, on the caps the wire message carries: stale, refused, cutting or passing |
| LiveSession.Live.CommitDelta | internal/agentd/lease.go:213-232 | a delta's second section checks the epoch again before it commits the wire caps and the deadline |
| LiveSession.Live.ApplyDelta | internal/agentd/lease.go:173-232 | a bound newer delta commits its caps, or, when it takes everything away, ends the session with conduit torn and host killed; any other changes nothing |
| LiveSession.Live.ApplyRevoke | internal/agentd/lease.go:240-267 | a signed revoke, bound and newer where the session is in the table, takes it out, kills the host and tears a live conduit; any other changes nothing |
| LiveSession.Live.OnLeaseExpired | internal/agentd/lease.go:105-124 | a passed deadline takes the session out and tears its conduit, and keeps the host; a deadline ahead changes nothing |
| LiveSession.Live.RefreshLiveGrant | internal/agentd/rehome.go:289-297 | a re-home replaces the grant of a live session |
| LiveSession.GateMeans | internal/agentd/lease.go:189-212 | a delta is stale, cuts or passes exactly by its epoch, its allow bit and what the grant authorizes |
| LiveSessionRuns.StepKeeps | internal/agentd/lease.go:76-267 | every locked section of every lease, delta, denial, timer callback and re-home keeps the invariant |
| LiveSessionRuns.HighestEpochGoverns | internal/agentd/lease.go:142-232 | in every interleaving committed epochs rise, caps are those of the highest committed delta and the deadline that of the highest committed message carrying one |
| LiveSessionRuns.CapsNeverWiderThanGrant | internal/agentd/lease.go:198-219 | across any mix of deltas and re-homes the grant keeps the recorded scope, because each re-issue is rebuilt from it, and the caps permit nothing it does not |
| LiveSessionRuns.CommittedWereSigned | internal/agentd/lease.go:142-188 | whatever was committed came from a message whose signature verified, for this session and client key |
| LiveSessionRuns.EnforcedAreSignedExactly | internal/agentd/lease.go:196-227 | what is enforced is what was signed exactly when the highest committed delta carried the same caps on the wire; either way it is no wider than the grant |
| LiveSessionRuns.SignedWireIsEnforced | internal/agentd/lease.go:196-227 | while every delta let through carries its signed caps, the caps in force are always signed ones |
| LiveSessionRuns.WireCapsOverrideSigned | internal/agentd/lease.go:196-215 | a run in which the wire's full caps are enforced against other signed ones |
| LiveSessionRuns.FreshRunKeepsConduit | internal/agentd/lease.go:105-124 | stale timer callbacks tear nothing while the deadline stays ahead |
| LiveSessionRuns.TornOnlyAfterDeadline | internal/agentd/lease.go:105-124 | a conduit torn without a denial had an expired deadline before |
| LiveSessionRuns.ReapedOnlyByDenial | internal/agentd/lease.go:88-124 | in every run the host is killed only by a denial of this session whose signature verified, never by starvation |
| LiveSessionRuns.DenialIsFresh | internal/agentd/lease.go:240-267 | a denial that passes its tests on a session in the table is bound to its client key and newer than everything committed |
| LiveSessionRuns.DenialEndsSession | internal/agentd/worker.go:300-323 | from a denial on the session is out of the table, its host killed, and its conduit torn if it was still in the table |
| LiveSessionRuns.StarvationEndsSession | internal/agentd/lease.go:105-124 | a check past the deadline arms a tear, and from the tear on the session is out of the table with its conduit torn |
| LiveSessionRuns.UnregisteredStaysOut | internal/agentd/worker.go:289-298 | a session that ended by itself is out of the table from then on |
| LiveSessionRuns.NothingAdmittedOnceOut | internal/agentd/lease.go:142-212 | once out of the table no lease or delta is admitted |
| LiveSessionRuns.RehomeTakesGrant | internal/agentd/rehome.go:286-297 | a re-home of a live session puts the re-issued grant in force and leaves epoch, deadline, caps and client key |
| Forwards.IsTargetAllowed | internal/agentd/lease.go:371-378 | the loop finds whether some allowed entry covers the destination |
| Forwards.TearForwards | internal/agentd/lease.go:301-315 | a tear cancels exactly the tracked splices the allowed set does not cover |
| Forwards.StepKeeps | internal/agentd/lease.go:207-315 | gates, tracking, commits, tears and ends, interleaved freely, keep every open splice allowed, due for a tear, or missed by one |
| Forwards.StoppedStays | internal/agentd/lease.go:270-315 | a splice that ended, or that a tear found tracked and not allowed, never carries traffic again |
| Forwards.RevokedForwardRunsExactlyWhen | internal/agentd/session.go:665-693 | once tears are done a running splice is outside the live caps exactly when the newest delta's tear fell between its gate and its tracking; it is never outside the grant |
| Forwards.RevokedForwardsStop | internal/agentd/lease.go:298-315 | if no tear falls in between, every running splice is one the live caps allow |
| Forwards.RevokedForwardCanRun | internal/agentd/session.go:669-686 | a run in which a revoked forward goes on |
| RehomeProtocol.StepKeeps | internal/controller/broker.go:189-202 | asking, checking, serving from an old check and taking keep the epoch invariant under loss, repetition and reordering |
| RehomeProtocol.EpochsStayTogether | internal/controller/broker.go:189-202 | in every run no endpoint is ahead of the record, some endpoint is at most one behind, epochs are taken once and in order, and every push carries the recorded scope and a 32-byte node key |
| RehomeProtocol.SingleRequester | internal/agentd/rehome.go:196-232 | with one requester the applied epoch e and the recorded r satisfy e <= r <= e + 1 |
| RehomeProtocol.ReplyIsNewer | internal/controller/broker.go:189-202 | serving a request leaves the record, and any push it sends, at an epoch above the one the request named |
| RehomeProtocol.MintsAnswerChecks | internal/controller/broker.go:165-251 | every grant minted answers a checked request of its own |
| RehomeProtocol.EndedMintsExactly | internal/controller/broker.go:165-206 | for a session out of use nothing is bumped or minted next exactly when no request is between its checks and its bump |
| RehomeProtocol.EndedStaysEnded | internal/controller/broker.go:161-206 | with no request past its checks when a session ends, nothing is minted, pushed or bumped while it stays out of use |
| RehomeProtocol.RevokedSessionIsReissued | internal/controller/broker.go:165-206 | a run in which a request checked before a revocation is bumped and minted after it |
| RehomeLoop.TerminalEvent.Emit | internal/agentd/session.go:54-77 | only the first call counts: it emits, or is swallowed as a re-homeable transport loss |
| RehomeLoop.Serve | internal/agentd/rehome.go:71-110 | all reports of one generation reach one terminal event, which classifies it |
| RehomeLoop.Migrate | internal/agentd/rehome.go:111-167 | back-off, request and rebuild end the run, spend an attempt, or reset the budget |
| RehomeLoop.ServeWithRehome | internal/agentd/rehome.go:41-167 | the loop plays its generations until one ends it |
| RehomeLoop.AtMostOneTerminalEvent | internal/agentd/rehome.go:71-167 | over all generations at most one terminal event goes out, and exactly one unless the run ended silently |
| RehomeLoop.SilentExactlyWhen | internal/agentd/rehome.go:97-110 | a generation ends silently exactly when it reported nothing while a re-home was still possible |
| RehomeLoop.LostExactlyWhen | internal/agentd/session.go:44-77 | a transport counts as lost exactly on the four loss details, while viable and within budget |
| RehomeLoop.EndsAsReported | internal/agentd/rehome.go:71-110 | a transport that is not lost ends the run with its first report, or as closed |
| RehomeLoop.SilentRunExactlyWhen | internal/agentd/rehome.go:71-110 | a run returns without a terminal event exactly when it reaches a generation that reports nothing while a re-home still seems possible |
| RehomeLoop.RunCanEndSilently | internal/agentd/rehome.go:100-107 | a run that returns without a terminal event |
| RehomeLoop.GivesUpExactlyWhen | internal/agentd/rehome.go:107-167 | a lost transport ends the run exactly when the session closed, its lease lapsed or the budget is spent; a session that may detach is then detached, not ended |
| RehomeLoop.ReturnsUnlessRehomesSucceed | internal/agentd/rehome.go:111-167 | a burst makes at most six attempts, so with s successes the loop returns by generation 6(s + 1) |
| Signatures.TrustedKeys | internal/types/cluster.go:269-278 | the key table: the last entry of an id wins, and one wrong-sized key refuses the list |
| Signatures.TableMeans | internal/types/cluster.go:269-298 | the table holds exactly the listed ids, each with the key of its last entry |
| Signatures.VerifyMultiSig | internal/types/multisigned.go:53-90 | the counting loop accepts exactly the envelopes that carry a quorum |
| Signatures.QuorumMeans | internal/types/multisigned.go:53-90 | a quorum is a set of enough distinct trusted ids, at least one, each with a signature the library verifies under that id's key |
| Trust.Worker.HandleClusterConfig | internal/agentd/worker.go:1151-1215 | one config message is the step the config theorems are about: signed by a held key, newer, saved, swapped in |
| Trust.Worker.VerifyFleetState | internal/types/trustanchors.go:138-173 | a pair verifies exactly with a quorum, no rollback, no expiry, and a map bound to these anchors |
| Trust.Worker.AdoptFleetState | internal/agentd/worker.go:1243-1275 | adoption swaps version, grant keys and pin together, or nothing |
| Trust.Worker.HandleFleetState | internal/agentd/worker.go:1314-1378 | a pair is checked against the held pin, or on first use against its own, then saved and adopted |
| Trust.Worker.HandleFleetPush | internal/agentd/worker.go:1291-1304 | a push without interference: a pair is taken, and a legacy config only on a node that has no pin |
| TrustConfigs.ConfigChange | internal/agentd/worker.go:1151-1215 | a config that changes anything verifies under a key held just before and is newer, and what comes in is what it lists |
| TrustConfigs.ConfigTakenExactly | internal/agentd/worker.go:1151-1215 | a well-formed config is taken up exactly when a held key signed it, it is newer and its keys have the right size |
| TrustConfigs.ConfigTrustDescends | internal/agentd/worker.go:1151-1215 | in every run the config trust set descends from the first by configs of rising versions, each signed by a key of the set before |
| TrustConfigs.UnsignedConfigsAreContained | internal/agentd/worker.go:1151-1215 | configs no held key signed change nothing, whatever else is delivered |
| TrustRuns.PairTakenExactly | internal/agentd/worker.go:1314-1378 | a pair is saved and adopted exactly when it is acceptable, and the node then stands on what it lists |
| TrustRuns.AdoptedPairIsBound | internal/types/trustanchors.go:138-173 | in every run a pinned node's map is signed by a grant key its anchors list and names them by version and digest |
| TrustRuns.StepKeeps | internal/agentd/worker.go:1151-1378 | through any entry point a pinned node goes on holding the bound pair it pinned from |
| TrustRuns.VersionsNeverFall | internal/agentd/worker.go:1151-1378 | within one process config and anchor versions never decrease and a pin is never given up |
| TrustRuns.PinDescendsFromFirst | internal/agentd/worker.go:1314-1378 | every pin descends from the first by anchors each signed by a quorum of the set held just before |
| TrustRuns.ControllerWithoutQuorumIsContained | internal/agentd/worker.go:1306-1313 | if no delivered anchors carry a quorum of the pinned keys, the pin never moves |
| TrustRuns.AnchoredUnlessConfig | internal/agentd/worker.go:1151-1215 | what reaches the adopt lock leaves a pinned node on its anchors' grant keys exactly when it is not a config taken up with other keys |
| TrustPushes.AnchoredThroughoutExactly | internal/agentd/worker.go:1291-1304 | over interleaved deliveries a node stays on its anchors' grant keys exactly when no config with other keys, direct or tested before the pin, is taken up after it |
| TrustPushes.OrderlyPushesKeepAnchored | internal/agentd/worker.go:1284-1304 | with pushes only, and none that pins while a legacy config is on its way to the lock, a pinned node trusts exactly its anchors' grant keys |
| TrustPushes.LegacyPushOvertakesPin | internal/agentd/worker.go:1298-1302 | a run in which a legacy push tested before the pin is taken up after it |
| TrustRuns.RestartExactlyWhenSelfSigned | internal/agentd/state.go:273-293 | a pinned node reloads its pair exactly when the anchors are unexpired and also signed by a quorum of their own set, and then has the same pin |
| TrustRuns.ConfigReloadsExactlyWhenSelfSigned | internal/agentd/state.go:237-265 | a legacy config taken up reloads exactly when its signer is in the trust set it brings |
| TrustRuns.RestartKeepsVersionExactlyWhen | internal/agentd/worker.go:446-474 | a restart of a pinned node keeps its config version exactly when no direct config moved it past the map |
| TrustRuns.ConfigReplacesGrantKeys | internal/agentd/worker.go:1033-1034 | a config that moves a pinned node off its anchors' grant keys |
| TrustRuns.RotationStrandsRestart | internal/agentd/state.go:273-293 | an adopted rotation after which no restart accepts the saved pair |
| TrustRestarts.RestartPin | internal/agentd/state.go:273-293 | a restart leaves the pin, or takes the step its saved anchors had been accepted for; an unpinned node comes back with a self-made pin at most |
| TrustRestarts.AnchorVersionOutlivesRestarts | internal/agentd/worker.go:1314-1378 | over deliveries, half-finished saves and restarts the anchor version never falls and a pin is never lost |
| TrustRestarts.LineageOutlivesRestarts | internal/agentd/worker.go:1314-1378 | over a node's whole life its pin descends from the first by anchors each signed by a quorum of the set held just before |
| TrustRestarts.ContainmentOutlivesRestarts | internal/agentd/worker.go:1306-1313 | without a quorum delivered the pin never moves, not even through restarts, on a node that adopted what it saved |
| Bootstrap.Process.EstablishTrust | cmd/geneza-bootstrap/main.go:404-426 | root keys are taken exactly when genuine and not older, and raise the version |
| Bootstrap.Process.SwapWorker | cmd/geneza-bootstrap/main.go:567-641 | a swap commits and prunes, rolls back and marks bad, or is left to the shutdown |
| Bootstrap.Process.Reconcile | cmd/geneza-bootstrap/main.go:341-393 | one poll: reset, skip, trust, install, and swap only the version asked for |
| Bootstrap.Process.ResolveCurrent | cmd/geneza-bootstrap/main.go:207-258 | the named version, else the only one installed, else the first manifest that installs |
| BootstrapRuns.WorkerIsCurrent | cmd/geneza-bootstrap/main.go:341-435 | in every run with restarts and failed saves, between reconciles the running worker is the current version, the state names it and it is installed |
| BootstrapRuns.FloorsNeverFall | internal/update/state.go:34-49 | floor and root-keys version never decrease: in one process always, across restarts when saves succeed |
| BootstrapRuns.RestartKeepsFloorsExactly | internal/update/state.go:34-49 | a restart that resumes a version keeps both floors exactly when the state file holds them |
| BootstrapRuns.InstallsExactly | cmd/geneza-bootstrap/main.go:341-393 | a poll installs exactly when its version is looked at, its root keys trusted, the download whole, the manifest named and above the floor; otherwise nothing installed or running changes |
| BootstrapRuns.UntrustedPollChangesNothing | cmd/geneza-bootstrap/main.go:404-426 | root keys that do not verify or are older install, swap and raise nothing |
| BootstrapRuns.UntrustedFirstInstall | cmd/geneza-bootstrap/main.go:226-258 | under such root keys alone no first install happens |
| BootstrapRuns.RootKeysRaisedExactly | cmd/geneza-bootstrap/main.go:404-426 | the root-keys version rises exactly to a verified newer document's |
| BootstrapRuns.SoleVersionIsTakenUp | cmd/geneza-bootstrap/main.go:218-224 | a sole installed version is taken up and remembered |
| BootstrapRuns.CommitRespectsFloor | internal/update/install.go:99-109 | a committed build is at least as new as the floor exactly when a floor is set or the build is not before the epoch; the floor becomes the larger |
| BootstrapRuns.FirstInstallRespectsFloor | cmd/geneza-bootstrap/main.go:217-258 | a first install runs the manifest of one of its polls, at least as new as the floor under the same condition; the floor becomes the larger |
| BootstrapRuns.UnsetFloorAdmitsOlderBuild | cmd/geneza-bootstrap/main.go:430-435 | a build committed below an unset floor |
| BootstrapRuns.FailedIsShunned | cmd/geneza-bootstrap/main.go:618-634 | a failed gate puts the version on the bad list beside the others and the old worker back |
| BootstrapRuns.FailedVersionStaysOut | internal/update/state.go:104-128 | while a failed version stays the desired one no poll installs it and nothing moves: in one process whatever saves fail, across restarts when the state file tells of the failure |
| BootstrapRuns.RestartRemembersExactly | internal/update/state.go:115-128 | a restart goes on keeping the version out exactly when the state file tells of the failure |
| BootstrapRuns.RestartResumes | cmd/geneza-bootstrap/main.go:207-216 | a restart on an up-to-date state file runs the current version again and changes nothing |
| BootstrapRuns.InterruptedGateCondemnsNothing | cmd/geneza-bootstrap/main.go:614-620 | a gate cut short by shutdown leaves the old version current and the new one untainted |
| BootstrapRuns.CommitKeepsRollbackPair | internal/update/prune.go:18-40 | a commit leaves the new and the previous version installed, little else, and a clean bad list |
| BootstrapRuns.CurrentBinaryUntouched | cmd/geneza-bootstrap/main.go:381-392 | without a commit the running version's binary changes exactly when a manifest for it installs under another desired version |
| BootstrapRuns.CurrentBinaryCanBeReplaced | cmd/geneza-bootstrap/main.go:381-392 | a poll that replaces the running binary without a gate |
| Affinity.Store.ClaimAgentAffinity | internal/controller/affinity.go:44-57 | a claim takes the row with the next epoch, and no other row changes |
| Affinity.Store.ReleaseAgentAffinity | internal/controller/affinity.go:67-81 | a release deletes the row exactly when it names this controller and epoch |
| Affinity.Store.PutAdvertisedServices | internal/controller/affinity.go:83-95 | a put is stored unless a higher epoch is stored |
| Affinity.Store.ClearAdvertisedServices | internal/controller/affinity.go:111-126 | a clear deletes exactly the set of its own epoch |
| Affinity.EpochsFence | internal/controller/affinity.go:44-126 | in every interleaving the row is the latest claimer's, and of two claims with no deletion between them the later has the higher epoch |
| Affinity.SupersededReleaseExactly | internal/controller/affinity.go:67-81 | a superseded release deletes the live row exactly when a deletion restarted the epochs and the two coincide at one controller |
| Affinity.SupersededReleaseIsNoOp | internal/controller/affinity.go:67-81 | without a deletion since its claim only the latest claimer's release deletes |
| Affinity.LatestAdvertisesExactly | internal/controller/affinity.go:83-95 | the latest claimer's services are stored exactly when no higher epoch is, and such a one dates from before a deletion |
| Affinity.OlderDisturbsServicesExactly | internal/controller/affinity.go:83-126 | an older clear deletes a newer set exactly on equal epochs, an older put replaces it exactly when its epoch is not lower, and either needs a deletion in between |
| Affinity.OlderLeavesNewerServices | internal/controller/affinity.go:83-126 | between deletions an older connection neither overwrites nor clears a newer one's services |
| Affinity.StaleTeardownStrandsLiveOwner | internal/controller/nodecontrol.go:125-136 | a run in which a stale teardown deletes the live owner's row |
| Affinity.StaleTeardownClearsLiveServices | internal/controller/affinity.go:111-126 | a run in which a stale teardown at another controller deletes the live owner's services |
| Affinity.LeftoverServicesBlockNewOnes | internal/controller/affinity.go:83-95 | a run in which leftover services keep the live owner's out |
| Blobs.RefNamesAreConfined | internal/controller/blobstore.go:58-67 | an accepted ref names one path element without a separator, and distinct refs distinct files |
| Blobs.OtherNamesAreAccepted | internal/controller/blobstore.go:58-67 | every other name is accepted |
| Blobs.Store.Create | internal/controller/blobstore.go:77-97 | a create is refused for an unsafe ref or an existing blob, and otherwise opens a new temporary file |
| Blobs.Store.Commit | internal/controller/blobstore.go:131-153 | a commit reports success exactly when it made the name |
| Blobs.StepKeeps | internal/controller/blobstore.go:77-161 | every system call of every writer, a create that goes on from an old stat included, keeps each name on its writer's file and blob names on finished files |
| Blobs.CommittedBlobIsFixed | internal/controller/blobstore.go:122-161 | once readable a blob reads the same until removed, whatever writers do |
| Blobs.ReadersSeeWholeBlobs | internal/controller/blobstore.go:99-109 | a reader gets the bytes of all the writes of one finished writer, in order |
| Blobs.FileIsWritten | internal/controller/blobstore.go:122-129 | in every run a file holds exactly its writer's bytes in order |
| Blobs.CommittedWasSynced | internal/controller/blobstore.go:131-149 | every finished blob was closed with its bytes synced first |
| Blobs.CreateFollowsStat | internal/controller/blobstore.go:77-90 | a create goes on only where an earlier stat found the name absent |
| Blobs.NoTempIsLeft | internal/controller/blobstore.go:140-161 | once unlinked or aborted a temporary name is gone for good |
| Blobs.RemovedReadsNothing | internal/controller/blobstore.go:111-120 | a removed blob reads as nothing and every other ref as before |
| Blobs.AtMostOneCommit | internal/controller/blobstore.go:131-153 | of any number of uploads of one ref at most one commit succeeds while the blob is not removed |
| Blobs.CommitTakesName | internal/controller/blobstore.go:131-153 | a link commits exactly when the name is free and the upload still there, and the name is then that writer's file |
| Blobs.OneCommitBetweenRemovals | internal/controller/blobstore.go:131-161 | in any stretch of any run without a removal of the name at most one link commits |
| Blobs.CreateCanRaceCommit | internal/controller/blobstore.go:85-97 | a run in which a create goes on after another writer has taken the name |
| Blobs.LateCreateIsFencedAtCommit | internal/controller/blobstore.go:140-149 | such a writer's link fails and changes no name and no bytes |
| Blobs.TempLikeRefReadsUpload | internal/controller/blobstore.go:90-97 | a ref that spells a temporary name reads that upload, finished or not |
| SbomOrder.Diff | internal/sbom/sbom.go:306-328 | the delta is the components either list does not find unchanged in the other, each half sorted |
| SbomOrder.SortedInOrder | internal/sbom/sbom.go:287-299 | sorting puts a list in order and keeps its members |
| SbomOrder.PrecedesMeans | internal/sbom/sbom.go:285-304 | strings are ordered by their first difference |
| SbomOrder.AppliedSorted | internal/sbom/sbom.go:301-351 | the order of a delta's halves does not matter to what it gives |
| Sbom.ApplyToIndex | internal/sbom/sbom.go:335-346 | removed identities go, then added ones come |
| Sbom.IdentityMeans | internal/sbom/sbom.go:285-285 | two components are one member exactly when package and origin agree |
| SbomOrder.Apply | internal/sbom/sbom.go:335-351 | the result is the rebuilt set as a list in canonical order, one component an identity |
| SbomOrder.OrderIsCanonical | internal/sbom/sbom.go:287-299 | two ordered lists of one set are the same list |
| SbomOrder.RebuiltListIsNext | internal/sbom/sbom.go:330-351 | on unique identities the delta gives back exactly the ordered list it was made for |
| Sbom.ApplyUndoesDiffExactly | internal/sbom/sbom.go:330-351 | applying a delta to its base gives the list it was made for exactly when no unchanged identity has conflicting duplicates |
| Sbom.UniqueHasNoConflict | internal/sbom/sbom.go:281-285 | lists with unique identities have no conflict |
| Sbom.DuplicatesAreLost | internal/sbom/sbom.go:306-351 | two versions of one identity in the base lose it on the other side |
| Inventory.Module.constructor | internal/agentd/module_inventory.go:79-83 | a module starts with nothing reported and armed for a full report |
| Inventory.Module.ReportOnce | internal/agentd/module_inventory.go:203-269 | a cycle without interference: nothing goes out while unchanged or unwired; otherwise a full or a delta does, and the agent moves to the new set |
| Inventory.Module.BeginReport | internal/agentd/module_inventory.go:203-256 | the first section decides what goes out, from the state it reads |
| Inventory.Module.FinishReport | internal/agentd/module_inventory.go:258-263 | the second section moves the agent to the reported set and forgets any request for a full |
| Inventory.DeltaIsSmaller | internal/agentd/module_inventory.go:243-259 | a delta carries fewer components than the set it describes and names the last hash |
| Inventory.RowsMean | internal/controller/inventory.go:155-192 | the rows are the host's own components, as they were but for the source package |
| Inventory.AlteredFullIsDropped | internal/controller/inventory.go:44-73 | a document altered on its way is dropped |
| Inventory.TakenHashesAsClaimed | internal/controller/inventory.go:44-125 | what is taken from a report that claims a hash hashes to the claim |
| Inventory.RebuildsExactlyWhenIntact | internal/controller/inventory.go:98-110 | the controller rebuilds the new set from its rows exactly when every unchanged component survived storage whole |
| InventoryRuns.HeldWasCollected | internal/controller/inventory.go:34-195 | whatever the network, the workers and the uploads do, the stored document and hash are those of one collected set and the stored rows those of one |
| InventoryRuns.StepKeeps | internal/controller/inventory.go:34-195 | both sections of a cycle, every request and restart, and each store transaction of each worker and of each upload keep the invariant |
| InventoryRuns.RowsAgreeExactly | internal/controller/inventory.go:147-192 | document and rows agree exactly when the report whose rows are stored, put there by its worker or by an upload, has the rows of the report whose document is stored, as when both are one |
| InventoryRuns.SerialIngestsAgree | internal/controller/inventory.go:147-192 | if no document is written while another report is half way and no report's rows fall between an upload's read and write, document, hash and rows are one set's whenever no report is half way |
| InventoryRuns.FullIsTaken | internal/controller/inventory.go:44-73 | a genuine full gives the set it was made from |
| InventoryRuns.RebuildPassesExactly | internal/controller/inventory.go:109-125 | on whatever rows, a delta passes its re-hash exactly when the node id is the agent's subject name and the rows give the very set it was made for |
| InventoryCases.DeltaOutcomeExactly | internal/controller/inventory.go:98-125 | with whatever rows it reads, a delta is accepted exactly when the node id is the agent's subject name and the rows give its set; otherwise it is dropped and nothing is asked for |
| InventoryCases.DeltaBaseExactly | internal/controller/inventory.go:82-96 | a delta goes on exactly when its base's document is stored; otherwise a full is asked for |
| InventoryCases.BaselessIsDropped | internal/controller/inventory.go:82-89 | a delta without a base is dropped and nothing is asked for |
| InventoryCases.OwnRowsExactly | internal/controller/inventory.go:98-110 | on its base's own rows a delta gives its set exactly when unchanged components survived storage whole |
| InventoryCases.RequestHeededExactly | internal/agentd/module_inventory.go:184-269 | the next cycle sends a full whatever it collects exactly when the request did not fall between the two sections of a cycle |
| InventoryCases.RestartSendsFull | internal/agentd/module_inventory.go:184-269 | a restarted agent's first cycle sends a full |
| InventoryCases.CrossedWritesMixSets | internal/controller/inventoryqueue.go:45-66 | a run in which two reports leave one's document over the other's rows |
| InventoryCases.UploadRestoresOldRows | internal/controller/console_sbom.go:250-287 | a run in which an upload around a report puts older rows under the newer document |
| InventoryCases.RequestCanBeForgotten | internal/agentd/module_inventory.go:258-263 | a run in which a request arrives inside a cycle and is forgotten |
| InventoryCases.DesyncIsNoticed | internal/controller/inventory.go:90-96 | once the controller is not on the agent's last set, the next delta makes it ask for a full |
| InventoryCases.RequestResyncs | internal/agentd/module_inventory.go:184-269 | a request outside a cycle puts both ends on one set: the next full, once stored, is the agent's set in document, hash and rows |
| InventoryCases.FirstDeltaIsDropped | internal/controller/inventory.go:112-125 | on a node with another id the first delta is dropped and nothing is asked for |
| Dns.KeysAreNormal | internal/dns/resolver.go:32-35 | normalizing a zone key again changes nothing |
| Dns.TrimDropsDots | internal/agentd/dnsserver.go:81-106 | normalizing a zone drops dots from its ends and nothing else |
| Dns.Add | internal/agentd/dnsserver.go:83-101 | one spec's records enter its zone, later ones over earlier ones, blanks skipped |
| Dns.ZonesFromSpecs | internal/agentd/dnsserver.go:81-114 | the list holds each zone once, longest suffix first |
| Dns.Resolver.Update | internal/agentd/dnsserver.go:64-75 | an update installs a list of the pushed zones |
| Dns.Resolver.Answer | internal/agentd/dnsserver.go:149-187 | the loop answers from the first zone that matches |
| DnsAnswers.LastWriterWins | internal/agentd/dnsserver.go:81-106 | a stored record is the last one pushed for its zone and label |
| DnsAnswers.LongestZoneAnswers | internal/agentd/dnsserver.go:149-178 | the answering zone is the unique longest pushed zone that matches |
| DnsAnswers.OrderIsInvisible | internal/agentd/dnsserver.go:107-114 | answers do not depend on map order or on how the sort broke ties |
| DnsAnswers.LabelMeans | internal/dns/resolver.go:88-101 | the label of a name in a zone is the one label in front of it |
| DnsAnswers.MatchesMeans | internal/agentd/dnsserver.go:149-178 | a name is in a zone exactly when it is the zone or ends in a dot and the zone |
| DnsAnswers.RecordAnswersExactly | internal/dns/resolver.go:88-101 | a stored record answers its own name when its label has no dot and the name is not a pushed zone; a name that is a zone is refused, and so is a dotted one unless a longer zone answers |
| DnsAnswers.QueryAnswersExactly | internal/dns/resolver.go:39-101 | what every query inside a zone gets, each answer with its exact condition: refused, no such name, no data, or the stored address |
| DnsAnswers.OutsideIsRefused | internal/agentd/dnsserver.go:179-187 | a query outside all zones is refused |
| DnsAnswers.UnknownNameExactly | internal/agentd/dnsserver.go:146-148 | an unknown name in a zone does not exist exactly when it is one label in front of the longest zone |
| DnsAnswers.ZoneNameIsRefused | internal/dns/resolver.go:88-91 | a zone's own name is refused |
| DnsAnswers.TwoLabelsAreRefused | internal/dns/resolver.go:96-99 | a name with two labels in front of its longest zone is refused |
| DnsAnswers.UnknownNamesCanBeRefused | internal/agentd/dnsserver.go:146-148 | one zone, two unknown names refused and one that does not exist |
| Ecosystem.ParseEcosystem | internal/affected/ecosystem.go:45-58 | the parsing loop reads the family, the qualifiers before the release, and the release |
| Ecosystem.SplitReadsBack | internal/affected/ecosystem.go:45-58 | the tokens put together again are the string |
| Ecosystem.ReadMeans | internal/affected/ecosystem.go:45-67 | the release is the first token after the family that names a version, the qualifiers the non-empty tokens ahead of it |
| Ecosystem.AppliesByTokens | internal/affected/ecosystem.go:94-122 | an advisory applies exactly when families fold alike, releases do where both name one, and its qualifiers are among the component's |
| Ecosystem.KeyIsIdempotent | internal/affected/ecosystem.go:70-81 | a key keys to itself with the same family and release |
| Ecosystem.PreorderExactlyWhenScoped | internal/affected/ecosystem.go:94-122 | applicability is reflexive, and carries through an ecosystem exactly when that one names a release |
| Ecosystem.UnscopedBreaksTheChain | internal/affected/ecosystem.go:94-122 | an unscoped ecosystem links two releases that do not apply to each other |
| Ecosystem.KeyFindsWhatApplies | internal/affected/ecosystem.go:70-113 | an entry that applies has the component's key, up to letter case, exactly when both or neither name a release |
| Ecosystem.ExactKeyFindsWhatApplies | internal/affected/ecosystem.go:77-113 | compared as written, exactly when family and release are also spelled alike |
| Ecosystem.IndexThenFilter | internal/affected/ecosystem.go:67-113 | for entries scoped like the component, selecting by key and filtering equals filtering everything |
| ShellQuote.WordReadsBack | internal/client/parse.go:52-82 | a quoted word reads back as one word with its own characters |
| ShellQuote.ShellJoin | internal/client/parse.go:70-82 | a POSIX shell splits the joined line back into exactly the argument list |
| ShellQuote.JoinIsInjective | internal/client/parse.go:70-82 | different argument lists give different lines |
| EscapeSequences.EscapeDetector.constructor | internal/client/escape.go:14-27 | a detector starts at a line start |
| EscapeSequences.EscapeDetector.FeedByte | internal/client/escape.go:36-72 | one byte is one step of the detector the stream theorems are about |
| EscapeSequences.EscapeDetector.Feed | internal/client/escape.go:34-75 | feeding a chunk is the detector's steps up to the first action, which the stream theorems are about |
| EscapeSequences.ChunkingIsInvisible | internal/client/escape.go:31-75 | how a stream is cut into buffers changes neither output nor action nor state |
| EscapeSequences.DoubledReadsBack | internal/client/escape.go:34-75 | doubling line-start tildes and feeding gives the original bytes and no action |
| EscapeSequences.ActionAtFirstEscape | internal/client/escape.go:34-75 | an action fires exactly at the first line-start escape, with what came before passed on |
| EscapeSequences.OutputIsUndoubled | internal/client/escape.go:34-75 | nothing typed is lost: the output and a held tilde are the stream less the second tilde of each pair that starts a line, up to the first escape |

## Left out

- Audit: key loading, the off-box sink, `QueryPage`, 64-bit wrap of sequence numbers; a missing log reads as empty, and the checkpoint rename is atomic and durable.
- AuditCrash.StepKeeps: a write or sync that fails is followed by the end of the process; `RetryAfterFailedSyncBricksLog` says what an append after it does.
- Live sessions: the sftp channel and the host's read-only gate; registration is one step.
- Forwards.TearForwards: runs on values and not on the tracked map; a splice of a session already out of the table is not modelled.
- Live session table: one session of it is modelled.
- Re-home: whether a re-issued grant passes the offer gate is an input.
- RehomeLoop.ServeWithRehome: transports, tunnels and the back-off clock are inputs, one record per generation.
- Trust: certificate roots and TLS reload, host policy, key scopes per workspace; the outcome of each save is an input.
- TrustRuns.VersionsNeverFall: is about one process; `AnchorVersionOutlivesRestarts` and `RestartKeepsVersionExactlyWhen` say what restarts do.
- Bootstrap: draining, the session host, download and hash checks (one input), file modes of the versions directory.
- Affinity: the SQL store, and the bus subscriptions of a connection.
- Blobs: the S3 backend and the routing between backends; temporary names are unique for good, and the theorems are about refs that do not end in `.uploading`.
- Inventory: collection and classification of packages, compression, size limits, image digests and matching; collected lists have unique identities; of an upload the agent's rows it carries through are modelled, not the external rows it stores or those a report carries through.
- SbomOrder.Diff: equal identities keep their order, where the library's sort may swap them.
- Dns: wire format, address parsing and the socket; the sort is an insertion that keeps the order of lengths.
- Ecosystem: case folding is per character and given.
- ShellQuote: assignments, aliases, reserved words and expansions of the shell.
- Other packages: transports, certificates, the SQL store, metrics, command lines and consoles, and the simpler reconcilers, which would only add easy members.
