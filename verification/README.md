# Verification of the LeetPlus deploy control plane

The deploy control plane is a set of crash-tolerant protocols on durable state. This
project models them in Dafny and proves what holds at every step of every run.

**The crash model.** A durable write is one step. `Power.Machine` holds the durable state
as one value and a number of writes that will still succeed; a run with power `n` ends
exactly where a crash after its `n`-th write ends it, and keeps nothing but the disk.
Every contract therefore speaks about every cut. A raised exception is the status
`Refused`; a boolean, a clock reading or a signed window that the source reads from
outside becomes a parameter. SHA-256 is taken to be injective, so a record that stores a
digest holds the record itself.

**The modules.**

| file | what it models |
|---|---|
| `Power.dfy` | durable writes, power loss, exceptions, write-once leaves |
| `Host.dfy` | the leaves, symlink, unit, pointer and PENDING marker of `control_handoff.py`, and its atomic helpers |
| `HandoffV1.dfy` | the V1 signed handoff: apply, automatic undo, expiry recovery, signed rollback |
| `BridgeV2.dfy` | the V2 bridge, whose commit point is the accepted-handoff pointer |
| `Lineage.dfy` | the canonical lineage behind the RPC host, whose child may send any calls in any order |
| `Fence.dfy` | the external worker's firewall: install, refresh, rollback, and what the rules mean to a packet |
| `ProjectFence.dfy` | the provider-set refresh and one-shot chain installation of the project's own firewall |
| `Base64.dfy` | bytes and the base64 of section 4 of RFC 4648 |
| `Files.dfy`, `Sets.dfy` | files a cut may tear, approval windows, cardinalities |
| `Transport.dfy`, `Intro.dfy` | the intent-first source transport and introduction, their classifiers and finalizers |
| `Installer.dfy`, `InstallRequest.dfy` | the bundle installer, its staged request, and their reconcilers |
| `Retention.dfy` | which backups a prune keeps, and the removal loop |
| `Linker.dfy` | the memoised linker of captured imports |
| `Envelope.dfy` | the framing and chunked streams of the backup envelope |
| `Manifest.dfy` | the strict source-manifest parser and its printer |
| `Locks.dfy` | any number of processes taking the host-wide locks, the shell bootstrap's job locks among them |

## What the proofs found

Each of these is a theorem below, with the condition under which the code does meet the
intended property.

- **V1 re-run.** An interrupted apply always completes on an undisturbed re-run, except
  when the approval expires between the expiry check under the lock and the check just
  before the effects (`ExpiresBetweenChecks`, reached by `HandoffV1.LeavePending`): then
  PENDING stays.
- **V1 rollback.** A rollback cut after it announced an effect, followed by an apply
  invocation that finds everything in place and clears PENDING, is refused for good
  (`Stranded`, reached by `HandoffV1.StrandRollback`): no sequence of invocations changes
  the host again (`HandoffV1.StayStranded`). A current rollback succeeds exactly when the
  host is not in that state.
- **V2 bridge.** The permit is validated before the receipt is frozen. If it expires in
  between and publication is interrupted, the pointer is committed to a receipt that can
  never be published, and no apply or rollback changes the host again (`Overdue`, reached
  by `BridgeV2.StrandLateCommit`). If publication is not interrupted, the same record is
  accepted (`BridgeV2.AcceptAnyway`): the accepted receipt lies inside the permit's window
  exactly when the clock did not run back and the permit had not expired when it was frozen.
  The rollback permit, too, is validated before its intent is dated. If it expires in between
  and the rollback is cut once the symlink has moved, no apply or rollback changes the host
  again (`Lapsed`, reached by `BridgeV2.StrandLateRollback`).
- **Canonical lineage.** `prepare_forward` publishes PENDING before it freezes the receipt.
  Cut in between, the pointer may still be swapped, and then no sequence of calls completes,
  cancels or reverts the operation (`Wedged`, reached by `Lineage.Wedge`, kept by
  `Lineage.StayWedged`). An active-pointer temporary half written when the acceptance is cut
  blocks the same way (`Lineage.WedgeByTear`). One half written when a rollback's return is
  cut blocks the return: the previous active pointer never comes back (`TornBack`, reached by
  `Lineage.TearBack`, kept by `Lineage.StayTornBack`), though the operation may still be
  accepted again (`Lineage.ForthAgain`). Completion is possible exactly when none of these
  is the case (`Completable`, `Revertible`). Earlier no-effect and rolled-back terminals do
  not stop `prepare_forward`: after either, the same operation is prepared again
  (`Lineage.ForthAndBack`, `Lineage.CancelAndPrepareAgain`).
- **External fence.** One more `install` finishes a cut one, except between the two set
  creations (`BetweenSets`); one more `rollback` finishes a cut one, except between the
  chain's flush and its deletion (`Flushed`). An interrupted `refresh` of an active fence
  leaves its temporary set behind, after which neither `refresh` nor `rollback` ever
  succeeds (`Jammed`), and a `rollback` begun once the addresses have expired never
  finishes (`Emptied`). Each of the four is reached by one cut or one expiry, and no run of
  operations and expiries leaves it. `rollback` refuses an INSTALLING fence, and `install` a
  rolled-back one.
- **Project fence.** `install_chain` is not resumable at all after its first command: the
  re-run only verifies, and refuses. Run on a host whose external hooks already stand, it
  puts its hook in front of them and refuses its own result.
- **Transport and introduction.** A complete staged or introduced tree is doubted only if
  the clock stepped back between its intent and its acceptance. The introduction's finalizer
  does not compare its own clock with the marker it confirms, but the classifiers do: a
  finalization by an earlier clock succeeds, and the finished tree is called contradictory
  for good (`Intro.FinalizeTooEarly`); otherwise it is existing. A finalizer that is itself
  cut is never resumed.
- **Bundle installer.** Passing every check of the reconciler forces the installed tree, to
  every path, byte and field, except for what no check looks at: the enrollment's contract
  and decision, and further leaves beside the public roots
  (`Installer.ForeignLeafIsInstalled`). A reconciliation cut while it publishes the missing
  receipt leaves a temporary that every later one calls partial.
- **Retention.** Cut prunes and one more leave exactly what an uninterrupted prune leaves,
  and the receipts whose removal was cut off from their file's: as many as runs were cut on
  an odd write. Such a receipt stays for good, because later prunes remove a receipt only
  together with its file (`Retention.OrphanReceipt`).
- **Envelope.** Round trips hold for every plaintext and every key from 3072 bits, which
  `encrypt` checks, to 16384 bits, the longest modulus OpenSSL encrypts with. `decrypt` reads
  headers of up to 4096 bytes, which would suffice up to 23568 bits
  (`Envelope.RoundTripMargin`). A suite that meets everything assumed of the cryptography
  exists for each such key (`Envelope.WorksCanHold`).

## Model

| member | source | states |
|---|---|---|
| `Power.Machine.Put` | deploy/leetplus-compose/control_handoff.py:205-213 | the write of a temporary and its rename either happen whole or, when power is gone, not at all |
| `Power.Machine.Publish` | deploy/leetplus-compose/control_handoff.py:216-217 | a write-once leaf accepts its own bytes again, refuses others, and is otherwise written once |
| `Host.Switch` | deploy/leetplus-compose/control_handoff.py:301-309 | the symlink moves only from the expected target, in one step |
| `Host.PhaseEffect` | deploy/leetplus-compose/control_handoff.py:853-864 | a phase is refused exactly where neither its preimage nor an announced postimage stands, and every cut is one of its four states: before, intent, effect, receipt |
| `Host.RestorePointer` | deploy/leetplus-compose/control_handoff.py:909-928 | only this operation's own pointer is ever replaced by the previous one |
| `Host.FinishPending` | deploy/leetplus-compose/control_handoff.py:931-935 | only this operation's marker is removed |
| `HandoffV1.PhaseKeepsArmed` | deploy/leetplus-compose/control_handoff.py:853-864 | every cut of a phase keeps the invariant, and an armed phase is never refused |
| `HandoffV1.RunPhase` | deploy/leetplus-compose/control_handoff.py:853-864 | an armed phase ends in one of its states with the invariant, refused never |
| `HandoffV1.TryEffects` | deploy/leetplus-compose/control_handoff.py:1063-1081 | the guarded body either finishes, or stops with PENDING and its intents still explaining what moved |
| `HandoffV1.Undo` | deploy/leetplus-compose/control_handoff.py:1082-1095 | an undone apply is all old with its terminal record, PENDING cleared |
| `HandoffV1.RecoverExpired` | deploy/leetplus-compose/control_handoff.py:938-978 | an expired unaccepted apply goes back whole, whatever it had reached |
| `HandoffV1.Arm` | deploy/leetplus-compose/control_handoff.py:1034-1061 | effects start exactly under an authorization bound to the records already on disk |
| `HandoffV1.RerunIsAuthorized` | deploy/leetplus-compose/control_handoff.py:1018-1058 | a re-run with the original approval passes every authorization check |
| `HandoffV1.RollbackIsAuthorized` | deploy/leetplus-compose/control_handoff.py:1034-1058 | a ready rollback is authorized exactly when the host is not stranded |
| `HandoffV1.Reconcile` | deploy/leetplus-compose/control_handoff.py:1026-1033 | a receipt published without its pointer ends all new, PENDING cleared |
| `HandoffV1.BeforeTheLock` | deploy/leetplus-compose/control_handoff.py:981-1018 | what the checks before the lock decide for a re-run, a rollback and a first apply |
| `HandoffV1.ChecksAreWarrant` | deploy/leetplus-compose/control_handoff.py:813-850 | the executable checks together are exactly the written-out warrant: signed, for this action, naming the receipt where one is undone, and current at each instant it is read |
| `HandoffV1.Activate` | deploy/leetplus-compose/control_handoff.py:981-1096 | one invocation from any reachable disk keeps the invariant, changes the host only under a signed approval of at most four hours for what it does, says what each decision left and which outside outcomes it needed, completes every undisturbed re-run, completes a ready rollback exactly when not stranded, and never changes a stranded host |
| `HandoffV1.Operate` | deploy/leetplus-compose/control_handoff.py:981-1096 | after any sequence of applies and rollbacks, each cut anywhere: PENDING absent means all old or all new, any side out of place has PENDING and its signed intent on disk, and in either direction the symlink's phase begins only after the unit's has its receipt |
| `HandoffV1.ForthAndBack` | deploy/leetplus-compose/control_handoff.py:981-1096 | an apply and then its signed rollback restore unit, symlink and accepted record |
| `HandoffV1.StrandRollback` | deploy/leetplus-compose/control_handoff.py:1026-1055 | the stranded state is reachable by three invocations, with everything new and an approved rollback ready |
| `HandoffV1.StayStranded` | deploy/leetplus-compose/control_handoff.py:981-1096 | once stranded, no sequence of invocations changes the host, and every rollback is refused |
| `HandoffV1.LeavePending` | deploy/leetplus-compose/control_handoff.py:1018-1058 | an approval that expires between its two checks leaves PENDING set after a re-run that was cut nowhere |
| `BridgeV2.PhaseKeepsArmed` | deploy/leetplus-compose/control_handoff.py:853-864 | every cut of a bridge phase keeps the bridge's invariant |
| `BridgeV2.TryCommit` | deploy/leetplus-compose/control_handoff.py:703-722 | the record is frozen before the first effect, a refusal before the pointer leaves no receipt |
| `BridgeV2.Commit` | deploy/leetplus-compose/control_handoff.py:716-722 | no receipt exists before the accepted-handoff record does |
| `BridgeV2.Undo` | deploy/leetplus-compose/control_handoff.py:723-734 | a failure before the commit goes back whole |
| `BridgeV2.UndoExpired` | deploy/leetplus-compose/control_handoff.py:688-701 | a permit that expired before acceptance takes everything back |
| `BridgeV2.PublishCommitted` | deploy/leetplus-compose/control_handoff.py:640-669 | a committed bridge publishes exactly the frozen receipt, and only a timely one |
| `BridgeV2.PublishAuthority` | deploy/leetplus-compose/control_handoff.py:671-687 | permit and intent are immutable once published |
| `BridgeV2.Activate` | deploy/leetplus-compose/control_handoff.py:595-734 | once committed an apply moves nothing and can only publish the frozen receipt; anything it writes first is under a signed forward permit; an undisturbed re-run completes exactly as the permit's clock says, and a first apply under a valid permit commits |
| `BridgeV2.RollBack` | deploy/leetplus-compose/control_handoff.py:737-810 | an accepted bridge changes only under a signed permit naming its receipt, with timers, evidence and services as observed, and completes under one |
| `BridgeV2.Operate` | deploy/leetplus-compose/control_handoff.py:595-810 | over any run: the pointer is the commit point, the receipt is the frozen record, every intent is signed, only an authentic rollback moves an accepted bridge, and the symlink's phase waits for the unit's receipt forward and the unit's for the symlink's back |
| `BridgeV2.StrandLateCommit` | deploy/leetplus-compose/control_handoff.py:640-722 | a first apply whose permit expires before the record is frozen, and whose publication raises, is overdue, and no applies and rollbacks after it change the host |
| `BridgeV2.AcceptAnyway` | deploy/leetplus-compose/control_handoff.py:703-722 | with publication undisturbed the record is accepted whenever it was frozen, and is timely exactly when the permit had not expired |
| `BridgeV2.StrandLateRollback` | deploy/leetplus-compose/control_handoff.py:737-810 | a rollback whose permit expires between its check and its intent, cut once the symlink moved, leaves PENDING and a host no applies and rollbacks change |
| `Lineage.CasActive` | deploy/transition-bootstrap/canonical_lineage_native.py:56-74 | the active pointer is replaced whole; refused exactly by a torn or foreign temporary |
| `Lineage.RecordForwardAuthority` | deploy/transition-bootstrap/canonical_lineage_native.py:137-157 | plan, approval and intent are recorded once, from the predecessor state only |
| `Lineage.PrepareForward` | deploy/transition-bootstrap/canonical_lineage_native.py:137-161 | accepted exactly under `MayPrepareForward`, which names no earlier terminal; every cut keeps the invariant |
| `Lineage.FinalizeForward` | deploy/transition-bootstrap/canonical_lineage_native.py:163-197 | accepted exactly under `MayFinalizeForward`, and then both pointers are new, PENDING is clear, and every leaf is determined |
| `Lineage.PrepareRollback` | deploy/transition-bootstrap/canonical_lineage_native.py:199-227 | accepted exactly under an approval of the accepted receipt, from the accepted state |
| `Lineage.FinalizeRollback` | deploy/transition-bootstrap/canonical_lineage_native.py:229-268 | accepted exactly under `MayFinalizeRollback`, and then both pointers are the predecessor's and every leaf is determined |
| `Lineage.CloseNoEffect` | deploy/transition-bootstrap/canonical_lineage_native.py:270-317 | PENDING is cleared only where the two pointers agree |
| `Lineage.CancelableAgrees` | deploy/transition-bootstrap/canonical_lineage_native.py:270-317 | a cancelable direction stands at old and previous, or at new and own |
| `Lineage.GateAgrees` | deploy/transition-bootstrap/rpc_host.py:262-418 | the gate and the swap's preimage leave two moves, each under its published intents |
| `Lineage.GateIsWarrant` | deploy/transition-bootstrap/rpc_host.py:262-418 | the gate admits a call exactly under the written-out warrant: a rollback swap needs a PASS receipt, both rollback intents at one instant and a signed approval that names the forward receipt and holds at both instants; a forward swap its own counterpart |
| `Lineage.NativeKeepsSafe` | deploy/transition-bootstrap/native_boundary.py:222-255 | arbitrary records published by the child never endanger the pointers |
| `Lineage.HostRPC.CompareAndSwapPointer` | deploy/transition-bootstrap/native_boundary.py:175-190 | the pointer moves whole, only from the expected target and only without residue |
| `Lineage.HostRPC.RecoverPointerTemporary` | deploy/transition-bootstrap/native_boundary.py:192-208 | only the exact expected residue is removed, the pointer never |
| `Lineage.HostRPC.PublishCall` | deploy/transition-bootstrap/native_boundary.py:222-255 | one of six names, each written at most once, under an exclusive lock, and nothing else changes |
| `Lineage.HostRPC.Dispatch` | deploy/transition-bootstrap/rpc_host.py:420-480 | any call at any time: accepted exactly under `Accepts`, and then exactly the call's effect is on the disk, under write locks and the call's written-out warrant; the pointers move only under this operation's marker and an exclusive lock |
| `Lineage.Serve` | deploy/transition-bootstrap/rpc_host.py:510-570 | one request with any calls and any power keeps the invariant |
| `Lineage.Run` | deploy/transition-bootstrap/canonical_lineage_native.py:137-317 | over any requests and calls: without PENDING the pair is (old, previous) or (new, own), and a moved symlink has its intents on disk |
| `Lineage.GoForth` | deploy/transition-bootstrap/canonical_lineage_native.py:137-197 | a child that sends the calls of an apply through dispatch leaves exactly the accepted disk |
| `Lineage.ForthAndBack` | deploy/transition-bootstrap/canonical_lineage_native.py:137-268 | an accepted operation and its rollback, call by call through dispatch, restore both pointers, and the same operation may be prepared again |
| `Lineage.TearBack` | deploy/transition-bootstrap/canonical_lineage_native.py:229-268 | a rollback cut while it writes the previous active pointer beside the accepted one leaves the return torn |
| `Lineage.StayTornBack` | deploy/transition-bootstrap/rpc_host.py:420-480 | after a torn return no sequence of calls brings the previous active pointer back |
| `Lineage.ForthAgain` | deploy/transition-bootstrap/canonical_lineage_native.py:163-197 | from a torn return the same operation can be swapped forward and accepted again |
| `Lineage.CancelAndPrepareAgain` | deploy/transition-bootstrap/canonical_lineage_native.py:137-317 | an operation declared without effect is prepared again, its no-effect record still on disk |
| `Lineage.CompletableIsEnough` | deploy/transition-bootstrap/canonical_lineage_native.py:163-197 | after the swap, completion is possible exactly when the receipt was frozen and nothing blocks the active pointer |
| `Lineage.RevertibleIsEnough` | deploy/transition-bootstrap/canonical_lineage_native.py:229-268 | after the swap back, completion is possible exactly when nothing blocks the active pointer |
| `Lineage.StayWedged` | deploy/transition-bootstrap/rpc_host.py:420-480 | no sequence of calls leaves the wedged state |
| `Lineage.Wedge` | deploy/transition-bootstrap/canonical_lineage_native.py:154-161 | the wedged state is reachable through dispatch, by a cut before the receipt is frozen |
| `Lineage.WedgeByTear` | deploy/transition-bootstrap/canonical_lineage_native.py:56-74 | it is reachable too by a cut that tears the active pointer's temporary |
| `Fence.NeverWidens` | deploy/leetplus-compose/external-network-fence.py:22-35 | at every safe state other sources get exactly the original verdict, workers that or a drop, and once active a worker's packet passes exactly if allowed and originally passed |
| `Fence.OriginIgnoresFence` | deploy/leetplus-compose/external-network-fence.py:157-163 | the original rules' verdict does not depend on the fence's tables |
| `Fence.CompleteChain` | deploy/leetplus-compose/external-network-fence.py:31-35 | the complete chain drops exactly what is neither allowed flow |
| `Fence.InstalledMeaning` | deploy/leetplus-compose/external-network-fence.py:218-227 | whatever verify accepts, by literal addresses: 172.31.42.22 keeps the original verdict over TCP to 172.31.42.2 port 5432, 172.31.43.22 over TCP to a live member's port 443, every other packet of the two is dropped, no other source notices, and unless expiry is allowed some address is live |
| `Fence.RecordOrigin` | deploy/leetplus-compose/external-network-fence.py:157-163 | on any tables at all an installation begins exactly if the project's hook is first and no hook, chain or set of the fence is there, and records the list as it stands |
| `Fence.AddMissing` | deploy/leetplus-compose/external-network-fence.py:186-187 | the temporary grows from what it held to exactly the resolved addresses |
| `Fence.RefreshSet` | deploy/leetplus-compose/external-network-fence.py:181-191 | at every cut the live set is the previous or the complete new one; refused exactly by a leftover temporary or a full set |
| `Fence.InstallSet` | deploy/leetplus-compose/external-network-fence.py:239-262 | the set stage finishes exactly from the states `SetReady` names |
| `Fence.ReconcileChain` | deploy/leetplus-compose/external-network-fence.py:193-203 | any prefix is completed, in order, never refused |
| `Fence.ReconcileHooks` | deploy/leetplus-compose/external-network-fence.py:205-216 | the hooks end in front of the untouched original list |
| `Fence.Install` | deploy/leetplus-compose/external-network-fence.py:229-267 | succeeds exactly under `MayInstall`, ends verified, and its cuts stay resumable |
| `Fence.ResumableExactly` | deploy/leetplus-compose/external-network-fence.py:229-267 | a cut install of the same addresses can be finished exactly when it did not stop between the two set creations |
| `Fence.InstallUntilDone` | deploy/leetplus-compose/external-network-fence.py:229-267 | any number of cuts, then one run: hooks, chain and set are complete, unless between the creations |
| `Fence.Refresh` | deploy/leetplus-compose/external-network-fence.py:269-278 | succeeds exactly under `MayRefresh`; hooks and chain never change |
| `Fence.RemoveTables` | deploy/leetplus-compose/external-network-fence.py:302-310 | chain before set, refused exactly by a flushed chain or an expired set |
| `Fence.RollBack` | deploy/leetplus-compose/external-network-fence.py:280-314 | a rollback that returns leaves exactly the original list, no chain and no set, and succeeds exactly under `MayRollBack` |
| `Fence.RollBackUntilDone` | deploy/leetplus-compose/external-network-fence.py:280-314 | any number of cuts, then one run: everything is gone, unless between flush and delete |
| `Fence.ExpiryKeepsSafe` | deploy/leetplus-compose/external-network-fence.py:96-118 | expiring set members endanger nothing |
| `Fence.Operate` | deploy/leetplus-compose/external-network-fence.py:229-314 | over any run of operations, cuts and expiries no packet gains anything, and each of the four stuck states stays |
| `Fence.StuckIsRefused` | deploy/leetplus-compose/external-network-fence.py:229-314 | in each stuck state every operation that would leave it is refused |
| `Fence.JamByRefresh` | deploy/leetplus-compose/external-network-fence.py:269-278 | a refresh cut after its first command jams an active fence for good |
| `Fence.StrandInstall` | deploy/leetplus-compose/external-network-fence.py:229-262 | an install of a bare host cut after its second command is never resumed |
| `Fence.StrandRollBack` | deploy/leetplus-compose/external-network-fence.py:280-310 | a rollback of an active fence cut after its fourth command is never resumed |
| `Fence.StrandExpired` | deploy/leetplus-compose/external-network-fence.py:280-310 | a rollback begun when the addresses have expired never finishes |
| `ProjectFence.RefreshOne` | deploy/leetplus-compose/network-fence.py:145-153 | from whatever a cut left, the live set is previous or complete at every step and complete at the end |
| `ProjectFence.Refresh` | deploy/leetplus-compose/network-fence.py:132-153 | both sets end complete exactly if both answers fit; the second waits for the first |
| `ProjectFence.RefreshUntilDone` | deploy/leetplus-compose/network-fence.py:145-153 | one re-run finishes any sequence of cut refreshes |
| `ProjectFence.InstallChain` | deploy/leetplus-compose/network-fence.py:119-129 | a visible hook always has a complete chain behind it; each cut is determined, and a standing chain is accepted exactly when it is whole and its hook is first, or third behind a verified external fence's |
| `ProjectFence.InstallChainTwice` | deploy/leetplus-compose/network-fence.py:119-129 | a re-run succeeds exactly if no external hook stands and the first run did nothing or everything, and the tables after any cut are determined |
| `Transport.Stage` | deploy/leetplus-compose/standalone-intro-transport.py:647-707 | every cut is one of six residues in which each thing exists only if what is written before it is whole, and once a flat intent exists staging is refused without effect; every leaf there was begun while the approval was in force by the clock reading just before it |
| `Transport.Publish` | deploy/leetplus-compose/standalone-intro-transport.py:669-707 | the audit receipt is last, after a whole request receipt in a published snapshot |
| `Transport.StageLeaves` | deploy/leetplus-compose/standalone-intro-transport.py:664-668 | the staged leaves are written in order, each possibly torn |
| `Transport.ClassifiesEveryCut` | deploy/leetplus-compose/standalone-intro-transport.py:708-806 | terminal exactly when every write completed, missing-audit exactly when only that receipt is missing, provided the clock did not step back |
| `Transport.TerminalExactly` | deploy/leetplus-compose/standalone-intro-transport.py:708-806 | for any disk at all the classifier says terminal, or missing audit receipt, exactly for the tree of an uninterrupted run under an approval in force at both instants, or that tree without that receipt |
| `Transport.FinalizeReconcile` | deploy/leetplus-compose/standalone-intro-transport.py:826-878 | succeeds exactly under `MayFinalize`, writes two leaves, and is never replayed |
| `Transport.ClassifiesEveryFinalizeCut` | deploy/leetplus-compose/standalone-intro-transport.py:891-928 | each cut of a finalization is told apart, terminal exactly when it finished |
| `Transport.StageThenFinalize` | deploy/leetplus-compose/standalone-intro-transport.py:559-878 | finalizing a missing audit receipt gives the uninterrupted tree plus one intent, and nothing else can be finalized |
| `Transport.TryAgain` | deploy/leetplus-compose/standalone-intro-transport.py:559-878 | whatever is tried once the flat intent exists, only a finalizer's two leaves may appear, its intent once, and only where the audit receipt was missing |
| `Intro.Apply` | deploy/leetplus-compose/standalone-initial-intro.py:1048-1148 | every cut is one of seven residues, and an existing flat intent refuses the run without effect; every leaf there was begun while the approval was in force by the clock reading just before it |
| `Intro.BuildPayload` | deploy/leetplus-compose/standalone-initial-intro.py:1079-1097 | the payload is built in order in the staging directory |
| `Intro.InstallDormant` | deploy/leetplus-compose/standalone-initial-intro.py:1098-1118 | generation receipts precede the rename, dormant leaves follow it |
| `Intro.Conclude` | deploy/leetplus-compose/standalone-initial-intro.py:1119-1145 | the marker is whole before the last leaf, the receipt repeats it byte for byte after a full check |
| `Intro.ClassifiesEveryCut` | deploy/leetplus-compose/standalone-initial-intro.py:1313-1343 | existing exactly when complete, finalizable exactly when only the receipt is missing |
| `Intro.ReconcilesExactly` | deploy/leetplus-compose/standalone-initial-intro.py:1150-1343 | for any disk at all the classifier says existing, or finalizable, exactly for the tree of an uninterrupted timely run, or that tree without its receipt while the predecessor serves |
| `Intro.IntentDisturbsNothing` | deploy/leetplus-compose/standalone-initial-intro.py:1150-1234 | the finalizer's intent leaves the full check true, and the marker is the missing receipt |
| `Intro.Finalize` | deploy/leetplus-compose/standalone-initial-intro.py:1236-1274 | succeeds exactly under `MayFinalize`, and an existing finalize intent refuses it |
| `Intro.ClassifiesEveryFinalizeCut` | deploy/leetplus-compose/standalone-initial-intro.py:1291-1311 | each cut of a finalization is told apart; a finished one is terminal and existing exactly when its clock did not read before the marker, and contradictory otherwise |
| `Intro.ApplyThenFinalize` | deploy/leetplus-compose/standalone-initial-intro.py:1048-1274 | finalizing reproduces the uninterrupted tree plus one intent, exactly when the marker and every leaf are in place, and is classified existing exactly when its clock did not read before the marker |
| `Intro.FinalizeTooEarly` | deploy/leetplus-compose/standalone-initial-intro.py:1236-1328 | a finalization by a clock that reads before the marker succeeds, and whatever is tried later the tree is called contradictory |
| `Intro.TryAgain` | deploy/leetplus-compose/standalone-initial-intro.py:1048-1274 | whatever is tried once the flat intent exists, only a finalizer's two leaves may appear, its intent once, and only where the receipt alone was missing |
| `Installer.RecordIntent` | deploy/transition-bootstrap/bundle_installer.py:386-394 | the flat intent is first, then the three audit records |
| `Installer.StageAll` | deploy/transition-bootstrap/bundle_installer.py:127-145 | nothing is installed while the tree is being staged, and it ends whole |
| `Installer.Apply` | deploy/transition-bootstrap/bundle_installer.py:357-416 | every cut is one of five residues, at most once per flat intent, an authorized apply with power succeeds, and nothing is written without locks, preflight and an approval in force |
| `Installer.PassesForcesTree` | deploy/transition-bootstrap/enrollment.py:85-130 | passing the digest checks of receipt, chain and inventory forces every path, byte and field of the signed tree |
| `Installer.SignedPasses` | deploy/transition-bootstrap/bundle_installer.py:472-490 | the signed tree of an authorized intent passes every check |
| `Installer.ForeignLeafIsInstalled` | deploy/transition-bootstrap/enrollment.py:99-130 | a tree with another enrollment contract or a foreign leaf beside the roots is reported installed |
| `Installer.DecidesItsOwn` | deploy/transition-bootstrap/bundle_installer.py:418-450 | whatever is on disk, a readable intent is decided about only if it is this plan's and approval's, recorded while the approval was in force |
| `Installer.InstalledMeansWhole` | deploy/transition-bootstrap/bundle_installer.py:418-503 | whatever is on disk, installed is reported only for the signed tree and audit trail, but for the enrollment's unchecked fields and leaves beside the roots |
| `Installer.ClassifiesEveryCut` | deploy/transition-bootstrap/bundle_installer.py:418-503 | installed exactly from the final rename on, unless the receipt was begun and not finished |
| `Installer.Reconcile` | deploy/transition-bootstrap/bundle_installer.py:418-503 | publishes the missing receipt or nothing |
| `Installer.ApplyThenReconcile` | deploy/transition-bootstrap/bundle_installer.py:357-503 | a reconciled state is an uninterrupted run's, and a second reconciliation changes nothing and names the same receipt |
| `Installer.ReconcileCut` | deploy/transition-bootstrap/bundle_installer.py:80-96 | a reconciliation cut inside its publication is partial for good, and only then |
| `InstallRequest.Stage` | deploy/transition-bootstrap/bundle_installer.py:200-245 | every cut is one of five residues, at most once per request intent |
| `InstallRequest.Reconcile` | deploy/transition-bootstrap/bundle_installer.py:247-302 | writes the missing receipt or nothing |
| `InstallRequest.StagedMeansPlaced` | deploy/transition-bootstrap/bundle_installer.py:247-302 | for any disk at all staged is reported exactly for the signed files in place under a timely intent, with their receipt or without |
| `InstallRequest.ClassifiesEveryCut` | deploy/transition-bootstrap/bundle_installer.py:247-302 | staged exactly from the rename on, unless the receipt is torn |
| `InstallRequest.StageThenReconcile` | deploy/transition-bootstrap/bundle_installer.py:200-302 | a reconciled request is an uninterrupted run's, and a second reconciliation agrees |
| `Retention.StableOnIntervals` | deploy/leetplus-compose/pull-backup.py:41-48 | any set between the kept backups and the whole history prunes to the same kept set |
| `Retention.KeptExactly` | deploy/leetplus-compose/pull-backup.py:42-45 | kept exactly: the two newest, and the newest of a day, week or month with fewer than seven, four or three newer ones |
| `Retention.LaterPeriods` | deploy/leetplus-compose/pull-backup.py:43-48 | the periods counted against a backup are exactly the later periods that have one |
| `Retention.AtMostThirteen` | deploy/leetplus-compose/pull-backup.py:42-48 | never more than thirteen backups are kept |
| `Retention.PruneAfterArrival` | deploy/leetplus-compose/pull-backup.py:33-52 | one arrival into a pruned store, pruned, is a prune of everything |
| `Retention.StoreIsOnePrune` | deploy/leetplus-compose/pull-backup.py:33-52 | pruning after every arrival keeps what one prune of the whole history keeps |
| `Retention.ArrivalOrderIsIrrelevant` | deploy/leetplus-compose/pull-backup.py:40-52 | in whatever order the backups arrive |
| `Retention.Scan` | deploy/leetplus-compose/pull-backup.py:41-48 | the loop over its four sets computes the kept set |
| `Retention.Sort` | deploy/leetplus-compose/pull-backup.py:34-40 | the candidates end newest first, none lost |
| `Retention.Retain` | deploy/leetplus-compose/pull-backup.py:33-52 | only doomed backups go, each file before its receipt; it finishes exactly when power lasts two writes for each, and a cut orphans a receipt exactly on an odd write |
| `Retention.RetainUntilDone` | deploy/leetplus-compose/pull-backup.py:33-52 | cut prunes, then one more: exactly the uninterrupted result and the orphaned receipts, whose number is determined by the cuts; equal to it exactly when there is none |
| `Retention.OrphanReceipt` | deploy/leetplus-compose/pull-backup.py:49-52 | a cut after the first write leaves one receipt that no later prune removes |
| `Linker.LinksExactlyClosed` | deploy/transition-bootstrap/host_observer.py:37-51 | a link succeeds exactly when the graph reachable from the root is closed and acyclic |
| `Linker.LinkIgnoresVisiting` | deploy/transition-bootstrap/host_observer.py:37-51 | the result does not depend on the path that led to a module |
| `Linker.LinksOnAnyPath` | deploy/transition-bootstrap/host_observer.py:38-40 | a memo hit is what a fresh link would give, on any path |
| `Linker.ImportIsSmaller` | deploy/transition-bootstrap/host_observer.py:48-49 | an import's data URL is shorter than its importer's, so only the root's size decides |
| `Linker.FreshEncodes` | deploy/transition-bootstrap/host_observer.py:37-51 | a link is the module asked for with every import replaced by what it names, all the way down |
| `Linker.EncodesOne` | deploy/transition-bootstrap/host_observer.py:41-51 | a module has only one such text |
| `Linker.FitsExactly` | deploy/transition-bootstrap/host_observer.py:37-51 | a module has a link exactly when the graph below it is closed and acyclic and its whole data URL is at most 16 MiB |
| `Linker.Captured.Link` | deploy/transition-bootstrap/host_observer.py:37-51 | the memoised recursion terminates on every graph, equals a fresh link within the limit, and is the module asked for with every import in place |
| `Linker.LinkRoots` | deploy/transition-bootstrap/host_observer.py:35-53 | every root, in any order, gets its own text with every import in place, and all of them do exactly when each can be linked |
| `Base64.RoundTrip` | deploy/leetplus-compose/backup_crypto.py:68-107 | decoding the base64 of any bytes gives them back |
| `Base64.TestVectors` | deploy/transition-bootstrap/host_observer.py:48 | the encoding agrees with vectors of section 10 of RFC 4648 |
| `Envelope.WordRoundTrip` | deploy/leetplus-compose/backup_crypto.py:77-102 | the big-endian header length reads back |
| `Envelope.WorksCanHold` | deploy/leetplus-compose/backup_crypto.py:61-131 | for every key encrypt allows, some suite has all the properties assumed of the cryptography |
| `Envelope.RoundTrip` | deploy/leetplus-compose/backup_crypto.py:61-131 | decrypting an encrypted backup returns the same bytes, for every plaintext and every key from 3072 to 16384 bits |
| `Envelope.RoundTripMargin` | deploy/leetplus-compose/backup_crypto.py:64-103 | any longer key that can be wrapped round-trips exactly while its header stays within the limit of decrypt |
| `Envelope.HeaderLength` | deploy/leetplus-compose/backup_crypto.py:67-68 | the header's length is a function of the recipient's modulus length, and readable exactly up to 23568 bits |
| `Envelope.EnvelopeLayout` | deploy/leetplus-compose/backup_crypto.py:61-87 | byte by byte what encrypt writes: magic, big-endian length, header, each byte sealed at its own position, and the tag over header and whole ciphertext |
| `Envelope.AcceptedLayout` | deploy/leetplus-compose/backup_crypto.py:90-131 | decrypt publishes a text exactly for a file so framed, with a header of 100 to 4096 bytes, a key the private key opens, and that key's tag over header and whole ciphertext |
| `Envelope.ThereAndBack` | deploy/leetplus-compose/backup_crypto.py:61-131 | encrypting and then decrypting with the key pair publishes exactly the source |
| `Envelope.SealAll` | deploy/leetplus-compose/backup_crypto.py:78-80 | the chunk loop terminates and seals the whole source |
| `Envelope.Encrypt` | deploy/leetplus-compose/backup_crypto.py:61-87 | the destination appears only as the whole envelope; a short key, a key that cannot be wrapped or an existing file refuses it, and a header too long for its length word leaves the temporary |
| `Envelope.OpenAll` | deploy/leetplus-compose/backup_crypto.py:112-120 | the countdown loop terminates and opens exactly the ciphertext |
| `Envelope.Decrypt` | deploy/leetplus-compose/backup_crypto.py:90-131 | accepts exactly the authentic envelopes, creates the destination only after the tag over all the ciphertext, and cleans up its temporary on error |
| `Manifest.JoinSplit` | deploy/leetplus-compose/standalone-initial-intro.py:224-229 | splitting a text into lines loses nothing |
| `Manifest.SplitJoin` | deploy/leetplus-compose/standalone-initial-intro.py:224-229 | joined lines split back into themselves |
| `Manifest.AscendingUnique` | deploy/leetplus-compose/standalone-initial-intro.py:232-233 | a set of names has one byte-ordered listing |
| `Manifest.LessIsBefore` | deploy/leetplus-compose/standalone-initial-intro.py:232-233 | names are ordered where they first differ, a shorter one first |
| `Manifest.ParsesExactlyRows` | deploy/leetplus-compose/standalone-initial-intro.py:228-232 | a line has a reading exactly if it is 64 small hexadecimal digits, two spaces and a safe relative path, character by character |
| `Manifest.RowRoundTrip` | deploy/leetplus-compose/standalone-initial-intro.py:230-232 | a row and its text determine each other |
| `Manifest.ParseLines` | deploy/leetplus-compose/standalone-initial-intro.py:226-235 | the loop accepts exactly the line sequences that have a reading, and returns it |
| `Manifest.NoReading` | deploy/leetplus-compose/standalone-intro-transport.py:168-175 | a line the loop rejects leaves no reading of the whole |
| `Manifest.ParseManifest` | deploy/leetplus-compose/standalone-initial-intro.py:224-238 | an accepted text reprints to itself, and a printed map parses back to itself |
| `Locks.OrderedRequests` | deploy/transition-bootstrap/native_boundary.py:140-143 | every program asks in the order install, job, control, transition |
| `Locks.AsksExactly` | deploy/transition-bootstrap/native_boundary.py:140-143 | each program's requests and their modes, lock by lock |
| `Locks.StepKeepsExclusive` | deploy/transition-bootstrap/native_boundary.py:150-157 | one step of one process keeps exclusive holders alone |
| `Locks.RunKeepsExclusive` | deploy/transition-bootstrap/bundle_installer.py:148-175 | for any number of processes, timeouts and crashes included, no exclusive window overlaps another holder |
| `Locks.WindowsExclude` | deploy/leetplus-compose/control.sh:14-58 | two programs are never in their windows together if one takes exclusively a lock the other takes |
| `Locks.WhoWorksTogether` | deploy/leetplus-compose/control.sh:14-58 | however many processes there are and whatever happened before, two in their windows are programs that may work together: a modifying one only beside the emergency cleanup, no job or boundary read twice |
| `Locks.TogetherExactly` | deploy/leetplus-compose/control.sh:14-58 | two processes can be in their windows together exactly if their programs may |
| `Locks.NoWaitingCycle` | deploy/leetplus-compose/control_handoff.py:236-257 | no cycle of waiting processes is possible |
| `Locks.SomeoneMoves` | deploy/leetplus-compose/standalone-intro-transport.py:465-481 | while anyone is busy, someone can take the next step alone, and it changes the state |

## Left out

- Cryptography (Ed25519, RSA-OAEP of section 7.1 of RFC 8017, AES-GCM of section 7 of NIST SP 800-38D, DPAPI): a suite of functions with the laws `Envelope.Works` states, and booleans for signatures. OpenSSL's limit on the modulus is taken from OpenSSL, not from the repository.
- The Node validators and the child protocol: their verdict on a call is a boolean, and the child may send anything.
- Ownership, mode, link-count, mount and fsync checks, Docker, systemd and nginx inspection: an outcome given to each invocation.
- JSON and tar decoding; SHA-256 collisions.
- Two operators racing on what is read before the lock: invocations run one after another, with crashes between any two writes, and nothing else writes the modelled files.
- Field-by-field plan and admission matching, offline signing, acceptance rehearsals, memory sampling, the application's own entry points.
- `Lineage.Run`: one operation at a time, whose plan names two different releases; leftovers of `publish_exclusive` and of record publication, which the code removes before every retry, have no state of their own, and neither has the creation of the operation's directory.
- `Lineage.HostRPC.Dispatch`: signature, permit, execution and recovery-envelope checks of the pointer gate are the one verdict `trusted`; the approval windows, intents and markers are modelled.
- `Fence.Install`: ipset expiry happens between operations; during one, the packet theorem holds for any set content.
- `Fence.Operate`: a reboot, which empties the kernel tables, and foreign changes to the tables.
- `ProjectFence.RefreshOne`: an existing set of another type, which `create` refuses.
- `Transport.Stage`, `Intro.Apply`, `Installer.Apply`: payloads are known by content, and a torn file is a state of its own rather than a particular prefix.
- `Intro.Apply`: the anchor and parent directory identities are fixed; creating the absent parents is modelled.
- `Installer.StageBundle`: the order in which directories and leaves of one kind are staged, which is any order here.
- `Retention.Retain`: two receipts naming the same file, and links in the backup directory.
- `Linker.Captured.Link`: text inside a module that looks like one of its imports but is not; imports are the list the pattern finds.
- `Envelope.Encrypt`: the unreadable state of a half-written chunk, which nothing ever reads.
- `Locks.OrderedRequests`: the preparation programs, which run before the control plane serves, and the locks of the simplified deployment.
- `Locks.RunKeepsExclusive`: replaced lock files, which the programs detect by inode.
