# A verified model of the ethertest node

ethertest keeps a tree of blocks with one canonical head, and beside it a number of structures that have to agree with
each other through mining, branch mining, missed slots, snapshots, restores, branch switches, crashes and restarts.
This project models those structures in Dafny and proves what every sequence of writes keeps.

`dafny verify dfyconfig.toml` checks all of it.

| files | what they hold |
|---|---|
| `BlockTree` | blocks, ancestry, the lowest common ancestor, the slot index and its two lookups |
| `RequestCodec`, `RequestQueue` | typed execution requests as bytes (EIP-7685, with EIP-6110, EIP-7002 and EIP-7251 payloads), the control queue, filling a block |
| `Reconcile`, `ReconcileMeaning`, `Ledger` | the queue after a reorganisation, what that means on any input, and the ledger of issued IDs that explains it |
| `Taint` | inherited taint of blocks and permanent taint of the session |
| `NodeState` | the node as a state machine: one function per write, startup checks, whole runs |
| `NodeInvariant`, `NodeSteps`, `NodeRestart`, `NodeRuns`, `NodeReturn`, `NodeFinality` | what every step keeps, and the theorems about all runs |
| `NodeEffects` | what each write does, field by field and in the source's own numbers |
| `Node` | the same writes with loops and fields, proved equal to the step functions |
| `Journal`, `JournalStore` | the recovery journal with a crash between any two batches and other commits in between; commits and recovery as code |
| `Schema`, `Persistence`, `Commits`, `Crashes` | the names in the database, what every write commits, and the theorem about whole lives: writes, cut writes and restarts |
| `EventLog` | the bounded persisted event log |
| `Merkle` | merkleization and inclusion proofs against the SSZ "Merkleization" definition |
| `TxPool` | arrival numbers and transaction selection |
| `Tracer`, `SimulatedChain` | the log tracer and the chain normaliser of `eth_simulateV1` |
| `Forks` | fork arithmetic of the execution and the consensus side |

How the source is read:

- A block is a value and stands for its own hash: two blocks are equal when every hashed field is equal. The hash covers
  the request bytes and not the control IDs. A block's slot follows from its timestamp (`Forks.SlotInvertsTime`), so it
  is part of the block.
- What the execution engine computes (state roots, native requests, transactions) is an input of the step that mines.
  Native requests are a function of the block, so they are a field of it.
- All writes go through one controller, so the node is sequential. A write that returns an error changes nothing.
- A database batch is atomic, and so is making a block canonical. JSON, RLP and key encodings are taken as exact. State
  nodes stand under the hash of their content.
- After a write that leaves no buildable next slot the pending view cannot be rebuilt. Every later write is refused, and
  so is a restart, so the step functions refuse everything there.
- Integers are unbounded except where a 64-bit bound or wrap-around is written out.
- `disk` in `NodeState` is the persisted slot index. The journaled batch deletes after it puts, so a slot used by the
  removed and by the added path is deleted on disk while the copy in memory keeps it.

Statements that turned out false of the code are kept as they are, with a concrete counterexample and the exact
condition under which they hold:

- The persisted slot index after a switch: `NodeRuns.SwitchCanLoseSlot`, exact law `NodeRestart.SwitchLosesSharedSlots`,
  condition `NodeRestart.SwitchKeepsDiskIffDisjoint`; the next restart is then refused (`NodeRuns.RunRestarts`, which
  also names the other reason for a refusal: no slot left to build).
- The last finality announcement after a rewind: `NodeFinality.RestoreCanLeaveStaleAnnouncement`, condition
  `NodeFinality.SwitchIsAnnouncedIffSame`.
- Undoing a crashed operation: not when mining rebuilds a stored block, which a run can do (`NodeRuns.RunCanRemine`):
  `Journal.CrashCanDeleteStoredBlock`, condition `Journal.AtomicIffSafe`; for the writes of the node that condition is
  `Commits.SafeIffFresh`, and the startup after the loss is refused (`Crashes.RemineCanLose`,
  `Crashes.MissingBlockIsRefused`).
- Distinct arrival numbers: `TxPool.ResendingTiesFifo`, condition `TxPool.AddKeepsSoundIff`; a selection that does not
  depend on map order under `fifo`: condition `TxPool.DeterminedIffUntied`.
- Disk and memory of the event log after an empty commit on an over-full log: `EventLog.EmptyCommitCanDiverge`, condition
  `EventLog.PublishPersistsIff`; `since` at the largest revision: `EventLog.SinceIsExact`.

## Model

| member | source | states |
|---|---|---|
| `NodeRuns.StepKeepsInv` | node.go:759-892 | every write, successful or refused, keeps the whole invariant: tree, slot index, taint, snapshots, checkpoints, branches, request ledger, event fold |
| `NodeRuns.ReachableInv` | node.go:759-983 | the invariant holds after every sequence of writes and restarts from the first start |
| `NodeRuns.RunHoldsIdsOnce` | execution_requests.go:597-658 | after every run each issued ID is pending or recorded by one canonical block, once in all; no other ID exists |
| `NodeRuns.RunCanSwitchAnywhere` | execution_requests.go:823-920 | after every run, for every stored block, a switch takes no error branch, and the new queue is the not yet consumed suffix of what was issued, by increasing ID |
| `NodeRuns.RunRemineKeepsRecords` | node.go:773-819 | after every run, mining a block that is already stored leaves every request record as it was, IDs included |
| `NodeRuns.RunReplays` | branch.go:285-302 | folding all block events ever published (removed pops, other pushes a child of the tip) rebuilds the canonical chain |
| `NodeRuns.RunIsSlotted` | branch.go:285-297 | in every run every block event carries the slot of its block |
| `NodeRuns.ReorgDepthIsPops` | branch.go:285-302 | a switch ends in one reorg event whose depth is the number of removed events; the removals stop exactly at the lowest common ancestor |
| `NodeRuns.RunIndexIsExact` | chain.go:724-739 | after every run the slot index maps exactly the canonical slots to their blocks, and the lookup at any slot is the parent walk from the head |
| `NodeRuns.RunSlotsIncrease` | state_metadata.go:401-415 | after every run slots strictly increase along every stored chain, the clock has reached the head, the frozen finality slot is in range while paused and zero otherwise |
| `NodeRuns.RunTaintIsInherited` | state_metadata.go:431-473 | after every run a block is tainted exactly when it or an ancestor is unsafe, with the earliest such ancestor and the union of reasons; the session covers all of them |
| `NodeRuns.RunRestarts` | state_metadata.go:398-475 | after every run a restart is accepted exactly when no canonical slot is missing on disk and a block can be built for the next slot, and then changes nothing but forgetting snapshots |
| `NodeRuns.NoSlotLeftIsFinal` | node.go:886-891 | once no block can be built for the next slot, every further write and every restart is refused and nothing changes any more |
| `NodeRuns.SwitchCanLoseSlot` | branch.go:266-284 | a four-step run with two blocks at slot 1 loses that slot on disk, and the next restart is refused |
| `NodeRuns.RunCanRemine` | node.go:332-358 | snapshot, mine, revert, mine rebuilds a block that is already stored |
| `NodeRuns.RunMineSucceeds` | node.go:759-892 | after every run mining commits unless no slot is left, the native requests are malformed, or they hold builder requests in a block without a slot number |
| `NodeRuns.BuildGuardIsTimestampFits` | control.go:92-104 | the division guard before a block is built says exactly that its timestamp fits in 64 bits |
| `NodeRuns.OnlySwitchesLose` | state_metadata.go:167-188 | no step but a switch changes which slots are missing on disk |
| `NodeRuns.MissedEventsAreEach` | node.go:933-942 | missing slots publishes one event per missed slot, in order |
| `NodeRuns.HistoryGrows` | state_metadata.go:565-577 | no step forgets a stored block, an issued ID, an event or a taint; the first unsafe block of the session never changes |
| `NodeRestart.SwitchLosesSharedSlots` | branch.go:266-284 | the slots missing on disk after a switch are exactly those used by both paths, plus those missing before on neither path |
| `NodeRestart.SwitchKeepsDiskIffDisjoint` | state_metadata.go:174-183 | from an intact persisted index a switch keeps it intact if and only if removed and added path use disjoint slots |
| `NodeRestart.RestartSucceedsIffIntact` | state_metadata.go:398-475 | startup accepts a state that keeps the invariant if and only if its persisted index is intact and the pending view can be built for the next slot |
| `NodeRestart.RuntimeMetadataAcceptedIffIntact` | state_metadata.go:398-475 | the safety checks always pass; the slot checks pass if and only if the persisted index is intact |
| `NodeRestart.ControlMetadataIsAccepted` | metadata.go:80-130 | the checkpoint and branch checks pass in every state that keeps the invariant |
| `NodeRestart.RequestMetadataIsAccepted` | execution_requests.go:982-1116 | the request checks pass: records match blocks, an ID has one value, no ID is live twice |
| `NodeRestart.LiveHoldersAreOne` | execution_requests.go:982-1116 | two live holders of one control ID, in the queue or on the canonical chain, are the same holder |
| `NodeReturn.ReturnRestores` | branch.go:229-313 | whatever happened since, switching back gives the old head, clock and index, and the old queue followed by the requests issued since |
| `NodeReturn.SnapshotThenRevert` | node.go:304-358 | a revert undoes every run since its snapshot, short of a restart or an earlier revert to it; with no slot left it is refused and changes nothing |
| `NodeReturn.CheckpointThenRestore` | node.go:360-414 | a restore undoes every run since its checkpoint that does not take that checkpoint again, restarts included; with no slot left it is refused and changes nothing |
| `NodeReturn.RunKeepsCheckpoint` | node.go:360-390 | a checkpoint stays through every run that does not take it again |
| `NodeReturn.StepKeepsRecords` | execution_requests.go:187-193 | once stored, a block's request record never changes |
| `NodeReturn.RunKeepsSnapshot` | node.go:304-358 | a snapshot stays until it is reverted to or the node restarts |
| `NodeFinality.StepIsAnnounced` | finality.go:175-190 | without a rewind the finalized checkpoint only moves forward, and each move is announced |
| `NodeFinality.RunIsAnnounced` | finality.go:36-190 | in every run without rewinds, from an announced state on, the last announcement names the resolved block and epoch, and there is none exactly while these are genesis and epoch 0 |
| `NodeFinality.FirstRunIsAnnounced` | finality.go:36-190 | the same for every run without rewinds from the first start |
| `NodeFinality.PauseFreezes` | finality.go:49-57 | while paused nothing but a resume or a rewind moves the finalized checkpoint |
| `NodeFinality.SwitchIsAnnouncedIffSame` | branch.go:229-313 | after a switch the announcement stays exact if and only if the target chain resolves to the same checkpoint |
| `NodeFinality.RestoreCanLeaveStaleAnnouncement` | node.go:392-414 | restoring a checkpoint can return to epoch 0 without an announcement |
| `NodeFinality.SwitchBranchKeepsFinalized` | branch.go:195-227 | after every run a branch switch succeeds exactly when the branch contains the finalized block, which stays canonical |
| `NodeFinality.CreateBranchIffFinalized` | branch.go:17-59 | after every run a branch can be created exactly at canonical blocks that descend from the finalized one |
| `NodeFinality.FinalizedIsWalk` | finality.go:36-57 | in every state that keeps the invariant the finalized slot is two epochs before the clock or, while paused, before the frozen slot, and 0 if there is none; the finalized block is the parent walk from the head to it |
| `NodeEffects.MinedBlockIsBuilt` | node.go:759-892 | in every state a successful mining makes the built block the head: old head as parent, next slot, kind, both parts of the payload and native requests; it is stored, indexed in memory and on disk, and announced first |
| `NodeEffects.DifferentBuildsDiffer` | node.go:773-819 | two successful minings from one state give the same block if and only if kind, payload and native requests are the same |
| `NodeEffects.BranchBlockIsBuilt` | branch.go:61-193 | a branch block is the built one on the branch head, for the slot after that block's; the branch moves to it, and the canonical chain, its index, the clock, the queue and the events stay |
| `NodeEffects.RunMineBranchSucceeds` | branch.go:61-193 | after every run a branch block is made exactly when a slot is left, the branch exists, its timestamp fits and the native requests are well formed; it commits to those and takes none from the queue |
| `NodeEffects.FinalizedIsTwoEpochsBehind` | finality.go:36-57 | after every run the finalized slot is two epochs before the clock or, while paused, before the frozen slot, and 0 if there is no such slot; the finalized block is the latest block of the canonical chain at or before it |
| `NodeEffects.StepAnnouncesExactly` | finality.go:175-190 | after every run a step that does not rewind publishes its own events and then one announcement, exactly when the finalized block or its epoch changed |
| `NodeEffects.PauseHolds` | finality.go:81-117 | pausing freezes finality at the clock; through every run without a resume or a rewind the node stays paused there and the finalized block and slot stay |
| `NodeEffects.ResumeReleases` | finality.go:121-166 | a resume clears the pause and leaves clock and head |
| `NodeEffects.MissMovesClock` | node.go:903-983 | missing slots is refused exactly when the timestamp of the slot after them does not fit, and moves nothing but the clock, by their number, and the events |
| `NodeEffects.TaintNamesCauses` | state_metadata.go:28-29 | after every run a block carries `control-state-override` exactly when it or an ancestor overrode state, `execution-request-control` exactly when one took control requests, and no other reason |
| `NodeEffects.RequestQueuesIff` | execution_requests.go:127-154 | in every state that keeps the invariant a request is queued exactly when a slot is left, it has 192, 76 or 116 bytes by kind, fewer than 8192, 16 or 2 of its kind are pending and the next ID is below 2^64 - 1; it takes that ID at the end of its list and nothing else changes |
| `NodeEffects.RunQueuesIff` | execution_requests.go:678-701 | the same after every run, the next ID being one more than the number of requests ever issued |
| `NodeEffects.EnqueuedIsValid` | execution_requests.go:127-154 | a valid queue that accepts a request is valid afterwards |
| `NodeEffects.SnapshotTakesNextId` | node.go:304-330 | a snapshot is taken exactly while a slot and an ID are left, of head and clock, under the next number, which no snapshot has, and unused |
| `NodeEffects.SnapshotIsUsedOnce` | node.go:332-358 | after a revert to an unused snapshot, through every run without a restart, another revert to it changes nothing |
| `NodeEffects.CheckpointTakesHead` | node.go:360-390 | a checkpoint is taken exactly while a slot is left and it has a name, of head and clock, and nothing else changes |
| `NodeEffects.SwitchEventIs` | branch.go:285-302 | the events of a switch one by one: removed blocks from the old tip down, added blocks upwards, each under its slot, and the reorg last |
| `NodeEffects.SwitchGoesThere` | branch.go:229-313 | a switch to any stored block arrives at that block and that slot, lowers a frozen finality slot to it, and publishes its events |
| `NodeEffects.SwitchBranchGoesThere` | branch.go:195-227 | after every run a branch switch succeeds exactly when a slot is left and the branch descends from the finalized block, and arrives at the branch head and its slot |
| `NodeEffects.RestartIsCoherent` | state_metadata.go:398-475 | for any state whatsoever an accepted restart has an exact slot index, flags for every stored block, explained taint, and points and branches that match the stored blocks; only the snapshots are forgotten |
| `NodeEffects.RestartHasSoundRequests` | execution_requests.go:982-1116 | for any state whatsoever an accepted restart has records that match their blocks and IDs with one value, below the next ID, live in one place |
| `NodeSteps.MineKeepsInv` | node.go:759-892 | mining or a control block keeps the invariant |
| `NodeSteps.MinedRecordIsFixed` | execution_requests.go:627-657 | a rebuilt block writes the record it already has |
| `NodeSteps.MineBranchKeepsInv` | branch.go:61-193 | a branch block keeps the invariant and takes no control |
| `NodeSteps.SwitchNeverFails` | execution_requests.go:838-919 | reconciliation towards any stored block succeeds and leaves the unconsumed rest of the ledger |
| `NodeSteps.SwitchKeepsInv` | branch.go:229-332 | a canonical switch to any stored block succeeds and keeps the invariant |
| `NodeSteps.AddRequestKeepsInv` | execution_requests.go:678-701 | queuing a request keeps the invariant |
| `NodeSteps.MissSlotsKeepsInv` | node.go:903-983 | missing slots keeps the invariant |
| `NodeSteps.FinalityControlsKeepInv` | finality.go:81-166 | pausing and resuming finality keep the invariant |
| `NodeSteps.SnapshotKeepsInv` | node.go:304-330 | taking a snapshot keeps the invariant |
| `NodeSteps.RevertKeepsInv` | node.go:332-358 | reverting keeps the invariant |
| `NodeSteps.CheckpointKeepsInv` | node.go:360-390 | a checkpoint keeps the invariant |
| `NodeSteps.CreateBranchKeepsInv` | branch.go:17-59 | creating a branch keeps the invariant |
| `NodeInvariant.ReplaySwitch` | branch.go:285-302 | the events of a switch fold from the old canonical chain to the new one |
| `Node.PlanMine` | node.go:759-892 | a successful result has the built block, payload and native requests included, on the old head at the next slot; preparing the block, validating record and queue, its flags and the session's, and its events, each as loops, equal the step function |
| `Node.PlanMissSlots` | node.go:903-983 | the guard and the missed-slot loop give the events with which the step succeeds, or refuse exactly when it does |
| `Node.PlanAddRequest` | execution_requests.go:678-701 | a queue is returned exactly when a slot and an ID are left and the request has the size and the room of its kind, and then holds it under the next ID at the end of its list; the step does the same |
| `Node.PlanMineBranch` | branch.go:61-193 | the branch block is the built one on the branch head at the next slot; its record and its flags are those the step stores, or it is refused as the step is |
| `Node.PlanCreateBranch` | branch.go:17-59 | the branch the step enters, or its refusal |
| `Node.PlanResume` | finality.go:121-166 | the resume as code equals the step function |
| `Node.PlanSwitch` | branch.go:229-313 | paths, reconciliation, index edit, journaled puts and deletes, and events as loops equal the step function |
| `Node.PlanSwitchBranch` | branch.go:195-227 | the walk to the common ancestor and the finality guard equal the step function |
| `Node.EditSlotIndex` | branch.go:266-284 | the index edit over a map in any order gives the kept entries with the new path entered, and the deletes |
| `Node.EventsOfSwitch` | branch.go:285-302 | the event loops of a switch |
| `Node.ResolveFinality` | finality.go:40-47 | the resolved slot is two epochs before the given one, or 0; on an exact index the block is the latest one of the canonical chain at or before it |
| `Node.Node.constructor` | node.go:183-192 | a new node is the initial state and valid |
| `Node.Node.AddRequest` | execution_requests.go:678-701 | accepts exactly when a slot and an ID are left and the request has the size and the room of its kind; the request then stands under the next ID at the end of its list; writes only the queue and the history of issued requests; the new state is that of the step and keeps the invariant |
| `Node.Node.Mine` | node.go:759-892 | a committed block is the built one, on the old head at the next slot; the new state is that of the step and keeps the invariant; a block can be committed and still be reported as an error, exactly when the pending view cannot be built for the slot after it |
| `Node.Node.MineBranch` | branch.go:61-193 | the branch moves to the built block on its old head at the next slot; writes only the stored blocks, their flags and records, and the branches; the new state is that of the step and keeps the invariant |
| `Node.Node.CreateBranch` | branch.go:17-59 | writes only the branches; the new state is that of the step and keeps the invariant |
| `Node.Node.SwitchBranch` | branch.go:195-227 | the new state is that of the step and keeps the invariant; reports an error exactly when the step refuses |
| `Node.Node.MissSlots` | node.go:903-983 | writes only the clock and the published events; the new state is that of the step and keeps the invariant |
| `Node.Node.Snapshot` | node.go:304-330 | writes only the snapshots and their counter; the new state is that of the step and keeps the invariant |
| `Node.Node.Revert` | node.go:332-358 | while a slot is left it never errs, and reports whether the snapshot existed and was unused; then head and clock are those of the snapshot, that snapshot is used and no other changed; otherwise nothing changes; the new state is that of the step |
| `Node.Node.Checkpoint` | node.go:360-390 | writes only the checkpoints; the new state is that of the step and keeps the invariant |
| `Node.Node.Restore` | node.go:392-414 | while a slot is left it fails exactly when there is no such checkpoint, changing nothing; otherwise head and clock are those of the checkpoint; the new state is that of the step |
| `Node.Node.PauseFinality` | finality.go:81-117 | while a slot is left the node is paused afterwards, at the clock or where it was paused before; writes only the finality controls; the new state is that of the step and keeps the invariant |
| `Node.Node.ResumeFinality` | finality.go:121-166 | writes only the finality controls and the published events; the new state is that of the step and keeps the invariant |
| `BlockTree.DivergentPaths` | branch.go:334-351 | the three walks return the two paths above the lowest common ancestor, tip first |
| `BlockTree.LcaIsLowest` | branch.go:334-351 | every common ancestor is an ancestor of where the walks meet |
| `BlockTree.EditedIndexIsExact` | branch.go:266-284 | the edited index is the one recomputed from the new chain |
| `BlockTree.LookupIsParentWalk` | chain.go:724-739 | the index lookup and the parent walk agree at every slot |
| `BlockTree.LookUpSlot` | chain.go:724-739 | the downward loop is the index lookup, and on an exact index the parent walk |
| `BlockTree.WalkToSlot` | beacon.go:1070-1081 | the loop over parents is the parent walk |
| `BlockTree.ParentWalkIsLatest` | beacon.go:1068-1081 | the walk stops at the latest ancestor at or before the slot |
| `Ledger.ReconcileIsExact` | execution_requests.go:823-920 | between any two chains that follow the ledger there is no error branch and the new queue is what the new chain has not consumed, in issue order |
| `Ledger.RefillIsSame` | execution_requests.go:627-657 | the bytes a block commits to fix how many controls it takes and its chain fixes which, so a rebuilt block has the same record |
| `Ledger.IssuedExactlyOnce` | execution_requests.go:127-154 | every issued ID occurs once in queue and chain records together, any other never |
| `Ledger.FillKeepsQueue` | execution_requests.go:627-657 | filling a block moves exactly its recorded controls from the queue to the chain |
| `Ledger.EnqueueKeepsQueue` | execution_requests.go:127-154 | queuing issues the next ID at the end of its type |
| `Reconcile.ReconcileQueue` | execution_requests.go:823-920 | the nested loops over queue, removed path, added path and three maps equal the reference, errors included |
| `Reconcile.SortedSlice` | execution_requests.go:903-912 | entries met in any map order come out as the one listing by increasing ID |
| `ReconcileMeaning.ReconciledIff` | execution_requests.go:823-920 | for any queue, records and paths: it succeeds exactly when every record met is valid, no ID is mentioned with two types or payloads, the new path consumes no ID twice and nothing that was not pending or given back, and what is left has a positive ID and the size of its type; what it leaves is exactly what was offered and not consumed, by increasing ID |
| `RequestQueue.PrepareConserves` | execution_requests.go:597-658 | what a block takes and what stays queued are the old queue split in two, type by type |
| `RequestQueue.PreparedList` | execution_requests.go:562-658 | the committed list decodes to the native entries followed by exactly the recorded controls |
| `RequestQueue.PreparedFillsCaps` | execution_requests.go:597-658 | a block stays within the per-type caps and leaves a queue only where it is full |
| `RequestQueue.PrepareSucceeds` | execution_requests.go:597-658 | with a valid queue, preparation fails exactly when the native list or its hash is refused |
| `RequestQueue.PreparedIsValid` | execution_requests.go:240-266 | a prepared record, queue and header pass their own validators |
| `RequestQueue.RecordCounts` | execution_requests.go:240-266 | a valid record's control counts are read off the bytes its block commits to |
| `RequestQueue.ValidateControls` | execution_requests.go:772-802 | the loop with its set of seen IDs accepts exactly the valid control sets |
| `RequestQueue.PrepareBlock` | execution_requests.go:597-658 | hash check, parsing, splitting the queue, decoding and combining as loops equal the reference preparation, errors included |
| `RequestQueue.ValidateRecord` | execution_requests.go:240-266 | the validator as code accepts exactly the valid records |
| `RequestQueue.ValidateQueue` | execution_requests.go:804-821 | the loops over the three lists accept exactly the valid queues |
| `RequestQueue.ValidQueueMeans` | execution_requests.go:772-821 | a queue is valid exactly when its payloads have 192, 76 and 116 bytes, IDs increase within each list, and over all lists are distinct, positive and below the next ID |
| `RequestCodec.ParseExecutionRequests` | execution_requests.go:357-450 | the parser accepts exactly the well-formed lists and returns their entries |
| `RequestCodec.MarshalExecutionRequests` | execution_requests.go:452-523 | the marshaller fails exactly on deposits with bad credentials |
| `RequestCodec.ParseMarshal` | execution_requests.go:357-523 | parsing what was marshalled gives the same requests, for every value within the limits |
| `RequestCodec.MarshalParse` | execution_requests.go:357-523 | marshalling what was parsed gives the same bytes, for every accepted list |
| `RequestCodec.EncodeDecode` | execution_requests.go:297-355 | decoding an encoded entry gives the entry |
| `RequestCodec.DecodeEncode` | execution_requests.go:297-355 | encoding a decoded entry gives its bytes |
| `RequestCodec.ControlLayout` | execution_requests.go:297-355 | which bytes of a deposit, withdrawal and consolidation are which field, numbers little-endian |
| `RequestCodec.BuilderLayout` | execution_requests.go:357-450 | the same for builder deposits and exits |
| `RequestCodec.AcceptedIffShaped` | execution_requests.go:357-450 | a list is accepted exactly when its items have strictly increasing type bytes from 0 to 4, each with one or more whole entries of 192, 76, 116, 184 or 68 bytes, and at most 8192, 16, 2, 64 or 16 of them |
| `Taint.ChildIsDescribed` | state_metadata.go:537-563 | the flags of a child describe its whole chain if those of its parent do |
| `Taint.StoringKeepsCover` | state_metadata.go:565-577 | the session flags keep covering all stored blocks |
| `Taint.ChildSafety` | state_metadata.go:537-563 | the loop over reasons gives the child's flags |
| `Taint.StoreSessionTaint` | state_metadata.go:565-577 | the loop over reasons gives the session's flags |
| `Journal.AtomicIffSafe` | state_metadata.go:90-201 | over every sequence of steps, failures, crashes, interrupted recoveries and other commits the node is never stuck and comes up with the whole operation, or with nothing of it unless it was reported as done, and with every other reported commit on top: if and only if the operation is safe |
| `Journal.RunIsGuarded` | commit.go:72-98 | for every operation, safe or not, and every run: while a journal waits, writes are refused, so another commit only lands on a database without one |
| `Journal.SafeIsAtomic` | commit.go:65-122 | the "if" half |
| `Journal.AtomicIsSafe` | state_metadata.go:140-156 | the "only if" half, by a crash for each way of not being safe |
| `Journal.CrashCanDeleteStoredBlock` | state_metadata.go:140-156 | a crash right after the journal record of a mining that rebuilds a stored block deletes that block |
| `Journal.StoredTargetRuns` | state_metadata.go:104-117 | over every run a mining of a stored block, safe otherwise, ends all or nothing or with just that block gone |
| `Journal.CrashTakesStored` | state_metadata.go:140-156 | for every such mining a crash right after the journal record takes the block |
| `Journal.RecoveryCompletes` | state_metadata.go:90-138 | from wherever it crashed, an uninterrupted recovery brings the node up |
| `Journal.RecoveryRefusedIff` | state_metadata.go:90-138 | startup is refused exactly when the journal record is unreadable, has a version other than 3 or an unknown kind, or is of a head operation while the head is neither the old nor the new one; a refusal changes nothing |
| `Journal.RunsToDone` | commit.go:65-122 | without a crash the operation is done and reported so |
| `Journal.RunsToFailure` | commit.go:87-118 | a failure leaves what was durable by then and refuses all later writes |
| `Journal.DoneMeaning` | commit.go:65-122 | the finished operation key by key: journal gone, block stored, head moved, metadata over execution data, deletes last |
| `Journal.FinalizedMeaning` | state_metadata.go:167-188 | the final batch name by name: deleted even if also put, else the last put, else unchanged; the journal is gone |
| `Journal.CancelUndoes` | state_metadata.go:190-201 | cancelling undoes the execution puts if and only if they repeat what was stored |
| `Journal.DiscardIsClean` | state_metadata.go:140-156 | discarding a new target leaves the journal and at most the execution puts |
| `Journal.RollbackIsAdded` | commit.go:124-138 | the rollback keys are exactly the keys the execution puts add |
| `JournalStore.ExecutionPutsForJournal` | commit.go:124-138 | the loop collects exactly those keys |
| `JournalStore.FinalizeOperation` | state_metadata.go:167-188 | the batch loops are the final batch |
| `JournalStore.CancelOperation` | state_metadata.go:190-201 | the batch loop is the cancelling batch |
| `JournalStore.DiscardTarget` | state_metadata.go:140-156 | the loop over transactions is the discarding batch |
| `JournalStore.Store.CommitPrepared` | commit.go:65-122 | a disabled node or a pending journal changes nothing; otherwise the outcome is that of the crash model run to its end or to a failure, which leaves exactly the durable steps so far and disables writes |
| `JournalStore.Store.CommitAuxiliary` | commit.go:169-203 | the other commit of the crash model: one batch, puts then deletes, or nothing; it looks at the sticky error only, and a failure sets that |
| `JournalStore.Store.Recover` | state_metadata.go:90-138 | recovery as code is the recovery of the crash model, also when it dies between its batches |
| `JournalStore.Store.DisableWrites` | commit.go:22-30 | the error is sticky |
| `Crashes.FirstLifeIsCleanRun` | commit.go:65-203 | from the first start, whatever is written, wherever each write and each recovery is cut: the node's memory is that of a run without any cut, and its database is the database of that memory |
| `Crashes.CutComesBack` | state_metadata.go:203-228 | after a cut the node that starts is the one before the write or the one after it, restarted, and the latter if the write was reported as done |
| `Crashes.CutWrite` | commit.go:65-122 | the database after any crashes in a write stands for the state before it or after it; mining a stored block aside |
| `Crashes.CutRemine` | state_metadata.go:104-117 | for that case there is one more end: slot metadata that names a missing block |
| `Crashes.RemineCanLose` | state_metadata.go:140-156 | a crash right after the journal record reaches that end |
| `Crashes.MissingBlockIsRefused` | state_metadata.go:416-420 | no state starts from such a database |
| `Crashes.DatabaseIsExact` | state_metadata.go:303-396 | the database determines everything a startup loads, that is everything but the in-memory index, the snapshots and the histories |
| `Crashes.StartIsRestart` | state_metadata.go:203-228 | a startup on the database of a state is accepted only where that state restarts, and gives the restarted state |
| `Crashes.RestartStarts` | state_metadata.go:203-228 | where that state restarts, the startup is accepted |
| `Crashes.WriteIsPersisted` | commit.go:65-203 | every write, by journal, by single batch or without a commit, takes the database of the old state to that of the new one, event log included |
| `Crashes.FreshRepresents` | state_metadata.go:263-301 | what the first start writes is the database of the initial state |
| `Commits.SafeIffFresh` | node.go:812-819 | the journal makes a write of the node all or nothing if and only if it does not mine a stored block; switches and branch blocks always are |
| `Commits.DoneRepresents` | node.go:812-882 | a finished journaled write leaves the database of the new state |
| `Commits.LandRepresents` | commit.go:169-203 | so does a write that is one batch |
| `Commits.ExecutionRepeats` | commit.go:124-138 | writing state nodes again repeats what is stored |
| `Persistence.StepFollows` | commit.go:32-63 | for every write the names it puts, the path it enters into the slot index and the slots it deletes account for every difference in the metadata |
| `Persistence.BatchCarries` | state_metadata.go:167-188 | the puts and deletes of a write turn the metadata of the old state into that of the new one, name by name |
| `Persistence.MineChangesThese` | node.go:788-847 | a mined block changes the queue only if it takes controls and the session flags only if it is unsafe |
| `EventLog.RunIsExact` | events.go:50-115 | through any commits and restarts an exact log stays one: exactly the newest events, consecutively numbered, in memory and on disk |
| `EventLog.FirstRunIsExact` | events.go:50-115 | from the first start the log is exact for everything that was committed |
| `EventLog.PublishIsExact` | events.go:73-115 | one commit keeps that, even when it holds more than the capacity |
| `EventLog.ExactContents` | events.go:73-115 | an exact log holds the newest events up to the capacity, each under its place in the history |
| `EventLog.CommitIsRefusedIff` | events.go:73-100 | an exact log refuses a commit exactly when it has events and the revision after them would pass 2^64 - 1; a refusal changes nothing |
| `EventLog.PublishPersistsIff` | commit.go:183-201 | disk and memory stay equal if and only if something is published or the log is not over-full |
| `EventLog.EmptyCommitCanDiverge` | events.go:102-107 | two events published at capacity 2, a restart with capacity 1, and a commit without events deletes on disk an event that memory keeps |
| `EventLog.ReopenIsSame` | events.go:50-71 | reloading rebuilds the same log |
| `EventLog.ReopenRebuilds` | events.go:50-71 | under a changed capacity it rebuilds the same events and the same next revision |
| `EventLog.SinceIsExact` | events.go:137-149 | below 2^64 - 1 a reader gets exactly the later events, or a gap precisely when one was evicted; at 2^64 - 1 a gap whenever anything was published |
| `EventLog.Load` | events.go:50-71 | the load loop |
| `EventLog.EventLog.Open` | events.go:50-71 | opening what an exact log left behind gives that log |
| `EventLog.EventLog.PlanEvents` | events.go:73-100 | the planning loops, with their overflow error |
| `EventLog.EventLog.Commit` | events.go:102-115 | a commit appends to the history or is refused, and the log stays exact |
| `EventLog.EventLog.ReadSince` | events.go:137-149 | the reading loop returns exactly the unseen events or the gap |
| `Merkle.MerkleizeFixed` | consensus.go:253-262 | the level loop is the recursive root |
| `Merkle.MerkleizeList` | consensus.go:264-292 | the sparse build is the root of the zero-padded tree with the length mixed in |
| `Merkle.ZeroHash` | consensus.go:301-307 | the root of a zero subtree |
| `Merkle.EmptyListRoot` | consensus.go:309-315 | the list root of the empty list, its limit rounded up to a power of two |
| `Merkle.RootOfLevel` | consensus.go:253-262 | replacing leaves by their parents keeps the root |
| `Merkle.RootOfFour` | consensus.go:253-262 | the root of four leaves pairs the left two before the right two |
| `Merkle.ListRootOfTwo` | consensus.go:264-292 | a list of two with a limit of four: zeros after the items, the length mixed in last |
| `Merkle.BuildBranch` | consensus.go:588-600 | the sibling loop gives a proof that folds the leaf to the root |
| `Merkle.BuildBodyLeaves` | consensus.go:603-636 | the sixteen leaves one by one: each field of the body at its place, the empty lists under their limits, zeros at the end |
| `Merkle.CommitmentsProof` | consensus.go:603-660 | refused unless the tree has the given root, else four siblings that take the commitment list root to it |
| `Merkle.ProofsChain` | consensus.go:662-703 | list siblings, length and body siblings chain into one proof |
| `Merkle.BlobCommitmentProof` | consensus.go:662-703 | for every list of at most 4096 commitments and every index, seventeen siblings fold the commitment to the body root; refused exactly otherwise |
| `TxPool.ExecutableTransactions` | chain.go:437-464 | for every order, every map iteration and every tie the result is a selection that always takes a first offer, and holds for every sender exactly its maximal gap-free nonce run |
| `TxPool.DeterminedIffUntied` | chain.go:437-476 | there is one such selection only, whatever the state nonces, if and only if no two senders tie: always by fees, under `fifo` when no two read the same arrival number |
| `TxPool.SelectionIsUnique` | chain.go:437-464 | without ties two selections are equal |
| `TxPool.RunIsPlaced` | chain.go:335-387 | through all adds, re-sends included, and inclusions every transaction stands in its slot under its own hash, which is all a selection needs |
| `TxPool.SoundIsUntied` | chain.go:466-476 | distinct arrival numbers leave no ties |
| `TxPool.ChooseFirst` | chain.go:451-458 | for every pool one pass in any order finds an offer that none comes before, or there is no offer |
| `TxPool.FirstIsBest` | chain.go:466-476 | for every pool, what comes first arrived no later than any other, or has the highest effective tip and among equals the lowest hash |
| `TxPool.SelectedIsGapFree` | chain.go:437-464 | for every sender a selection holds exactly its maximal gap-free nonce run, in nonce order |
| `TxPool.BeforeIsTotal` | chain.go:466-476 | without ties the order is total between senders |
| `TxPool.AddKeepsSoundIff` | chain.go:374-382 | adding keeps arrival numbers present and distinct if and only if it does not re-add a pending transaction with both caps below 10 |
| `TxPool.ResentIsAccepted` | chain.go:335-344 | an identical transaction is accepted again exactly when both caps are below 10 |
| `TxPool.RunIsSound` | chain.go:703-716 | arrival numbers stay distinct through adds, replacements and inclusions |
| `TxPool.AddIsAcceptedIff` | chain.go:335-344 | a transaction is accepted exactly when its nonce is below 2^64 - 1 and, over a pending one of its slot, both caps reach 110% of that one's, rounded down; it then stands in its slot and no other slot changes |
| `TxPool.AddNumbers` | chain.go:374-382 | in a free slot a transaction takes the next arrival number; over another it takes over that one's number, which is gone; all other numbers stay |
| `TxPool.IncludeTakesExactly` | chain.go:703-716 | exactly the slots and the arrival numbers of the included transactions leave; all else stays |
| `TxPool.IncludedRunLeavesRest` | chain.go:703-716 | when a block takes the first transactions of a sender's gap-free run, the run from the advanced nonce is exactly the rest |
| `TxPool.ResendingTiesFifo` | chain.go:466-469 | after two cheap transactions are sent twice, `fifo` admits both selections; by fees there is still one |
| `TxPool.TransactionPool.AddTransaction` | chain.go:335-387 | the bookkeeping of an add; slots stay right, and arrival numbers exactly unless a pending transaction is re-added |
| `TxPool.TransactionPool.ApplyCanonicalBlock` | chain.go:703-716 | exactly the slots of the included transactions leave the pool, every other one stays as it was; slots and arrival numbers stay right |
| `Tracer.TraceIsReference` | rpc_simulate.go:898-956 | for every well-nested trace the result is the in-order list of logs whose own and enclosing frames did not revert |
| `Tracer.BlockIsReference` | rpc_simulate.go:945-956 | over all transactions of a block that holds in a row, and log indices strictly increase |
| `Tracer.TransferIsLogged` | rpc_simulate.go:898-932 | a call logs a transfer exactly when transfers are traced, it moves a positive value and it is neither CALLCODE nor DELEGATECALL: from the agreed address, under the ERC-20 topic, sender, receiver and value in that order |
| `Tracer.SimulationTracer.OnEnter` | rpc_simulate.go:898-903 | pushes a frame and logs a value transfer, except for delegated code |
| `Tracer.SimulationTracer.OnExit` | rpc_simulate.go:905-921 | pops a frame and hands its logs up, or drops them if reverted |
| `Tracer.SimulationTracer.OnLog` | rpc_simulate.go:923-943 | numbers a log and adds it to the open frame, if any |
| `Tracer.SimulationTracer.Reset` | rpc_simulate.go:945-949 | clears the frames and keeps the counter |
| `SimulatedChain.SanitizeChain` | rpc_simulate.go:274-335 | succeeds exactly when the request has a completion, and returns it: the caller's blocks in order with their own number and time or the next ones, empty fillers at the regular distance only where numbers are missing, nothing past 64 bits, at most 256 blocks |
| `SimulatedChain.CompletionIsUnique` | rpc_simulate.go:274-335 | a request has at most one completion |
| `SimulatedChain.FollowsInOrder` | rpc_simulate.go:274-335 | in a completion numbers run from the base without a gap, and times strictly increase without leaving 64 bits |
| `SimulatedChain.Place` | rpc_simulate.go:280-333 | one iteration, with its error cases |
| `SimulatedChain.FillGap` | rpc_simulate.go:300-312 | the filler loop, failing exactly when a time would overflow |
| `Forks.SidesAgree` | consensus.go:737-763 | for every accepted configuration and every slot whose timestamp fits, the epoch rule and the activation-time rule name the same fork |
| `Forks.ActivationIsExact` | chain.go:83-90 | under the guards no product or sum on the way to an activation time overflows |
| `Forks.EpochInvertsActivation` | genesis.go:226-240 | the epoch of a configured fork's activation time is that fork's epoch |
| `Forks.EpochOfTime` | genesis.go:226-240 | from genesis on it answers exactly on epoch boundaries, with the epoch that starts there |
| `Forks.EpochOffsetFits` | config.go:203-230 | the guards bound every fork's activation time |
| `Forks.AcceptedIffFits` | config.go:203-230 | the guards accept exactly the configurations whose forks are in order from genesis on and whose activation times fit in 64 bits |
| `Forks.VersionCountsForks` | consensus.go:737-763 | the fork version of a slot is 4 plus the number of later forks whose epoch has been reached |
| `Forks.SlotInvertsTime` | chain.go:747-755 | every second of a slot maps back to that slot |

## Left out

- The EVM, state tries, transaction validation and execution: not part of this model; their results are inputs.
- SHA-256, Keccak, BLS, KZG, RLP, JSON and SSZ library code: hashes are uninterpreted or injective, encodings exact.
- Networking, RPC argument handling, logging, files, archives and wallets.
- Mutexes, channels and the node life cycle: the single writer makes the model sequential.
- Response-size and operation-count limits: they only refuse more.
- Withdrawals, blobs and Beacon projections: field copying, except that they can fail a step; the pending view is modelled
  only in that it must be buildable for the next slot.
- `MineBranch` of several blocks is several steps, each its own commit, as in the source.
- The safe half of the finality resolution: the same function with one epoch of lag instead of two.
- NodeRuns.RunRestarts: the pending view fails only for lack of slots; failures of the execution engine while it is built are
  not modelled.
- Journal.AtomicIffSafe: takes as given that making the current head canonical again changes no key.
- EventLog.EventLog.Open: the load error for a persisted revision of 2^64 - 1 does not arise from an exact log and is not modelled.
- Merkle.EmptyListRoot: limits above 2^63, on which the 64-bit shift never ends, are outside its contract.
- TxPool.AddKeepsSoundIff: the arrival counter is unbounded, so its wrap-around after 2^64 adds is not modelled.
- TxPool.ExecutableTransactions: nested maps by sender and nonce are one map by both.
- Crashes.FirstLifeIsCleanRun: the configuration, the event log's capacity included, is the same at every start; the chain
  library's part is any mutation that makes the new head canonical (one exists, `Crashes.SomeMutation`), and its
  transaction lookups are only required to stay at or below the head.
- The packed blob codec, withdrawal indexing and archive framing.
