# PicoMQ, verified

A model of the hard core of PicoMQ in Dafny 4.11, with proofs: the replicated metadata state machine, the
authority of scoped tokens, the Kafka connection pipeline and the TypeScript producer.

`dafny verify dfyconfig.toml` checks the whole project.

## What is modelled

**Metadata.** `Metadata` is the state machine on its primary tables: streams, nodes, epochs, transfers, leases,
committed objects, the destroyed queue and the key-value table; a step function per command, and runs, in which an
error leaves the state as it was. `CommitAcceptance`, `CommitEffects`, `DestroyQueue`, `NodeCommands`,
`StreamCommands` and `ObjectCommands` say of each command exactly when it is accepted, why it is refused otherwise, what
it leaves and what it replies, in terms of the tables alone. `Frames`, `Ownership`, `Incarnations`, `EpochHistory`, `ObjectLifecycle`,
`Coverage`, `Redelivery`, `Placement` and `References` prove what every run keeps; `BackwardCommits` and
`LossyCompaction` are runs in which commands that should not be accepted are. `MetadataStore` is the state as it
is kept: a class with every secondary index and running counter, updated in place by loops over ids, slices and keys.
Each of its methods is proved to do to the primary tables what the specification's step does and to leave every index
equal to what `Indexes` derives. `Audit` relates that to the consistency audit in the source's tests, and `Rebuild`
shows that indexes hold nothing of their own.

**Tokens.** `Names` has the two spellings of a stream name and UTF-8, `Unicode` a numbering of the characters; `Scopes`,
`Rights`, `Inclusion`, `Narrowing` and `AutoPrefix` are containment, what a scope permits, how exact containment is,
issuing and relative names; `TokenCodec`, `TokenFraming` and `WireFormat` are the stored form of a record, and
`TokenBuffers` the encoder and decoder that produce and read it; `RangeScan` and `TokenStore` are paging and conditional writes.

**Kafka pipeline.** `OrderedWriter` is the writer task; `Pipeline` is the connection as a transition system over the
steps of its tasks, in any order.

**Producer.** `Budget` is the weighted semaphore; `Producer` is the session as a transition system over admissions,
queue, batches and acknowledgements, in any order, with the collecting loop that does not wait as a method;
`ProducerRules` is about admission, full batches and progress, `Shutdown` about closing.

`Prelude`, `Sorting` and `Sums` hold shared vocabulary.

## Assumptions

Where a property needs something the code does not check, it is a named hypothesis of the lemma, asked only of commands
that are accepted, and there are an exact condition for it and a run in which it fails:

- No stream ends before where it ended (`EpochHistory.GrowingRun`); exact by `EpochHistory.StepGrowsIff`, and failing in
  `BackwardCommits`. Ranges that do not run backwards are enough.
- New object ids are on lease, and compaction sources are or were stream objects of the stream
  (`ObjectLifecycle.LeaseDisciplinedRun`); exact by `ObjectLifecycle.RunLifecycleIff`, failing in
  `LossyCompaction.QueuedObjectCanReturn`.
- Nothing live is left out of a replacement (`Coverage.KeepingRun`); exact by `Coverage.NoDataLossIff`, failing in
  `LossyCompaction.ShortCompactionLosesOffset`.

Throughout:

- Integers are unbounded: ids, sequence numbers and byte totals do not wrap. Casts between signed and unsigned 64-bit
  values are modelled as such.
- The id that stands for "no object" is the largest unsigned 64-bit value. It is defined in the storage library, which
  is not part of this model.
- `maxInflight` is at least 1, which is what resolving the configuration guarantees.

A request's slices carry their sizes, so a stored row has one list where the source has two of equal length.
Strings are byte sequences; where being a Rust string matters, UTF-8 is a hypothesis.

## Where the code and its promises differ

- The index audit expects a record for every slice. Two slices of one stream with one start share a key in the slice
  index, and such a commit is accepted. `Audit.SliceAuditIff` and `Audit.StepAuditIff` say exactly when the audit
  passes; `Audit.AuditCanFail` is a run after which it does not. The index itself always equals what recording the
  slices in order leaves.
- Containment of resource sets is described as holding when every name of the child is a name of the parent. It is
  sound for all sets. `Inclusion.SetContainsExactIff` says exactly when it is complete: not where the parent allows a
  prefix only by listing it and each of its continuations. `Inclusion.StreamsContainExactIff` is the same for streams,
  which are compared in canonical form. It takes a matcher for every Unicode character, and
  `Inclusion.ManyMatchersEscape` is such a set.
- A commit may pull a stream's end back: a range whose end lies below its start is accepted if it starts where the stream
  ends. Offsets written under one epoch can then go on record under a later one:
  `BackwardCommits.BackwardCommitRewritesHistory`.
- A stream-object compaction is accepted whatever part of its sources its range leaves out:
  `LossyCompaction.ShortCompactionLosesOffset`. And a commit may use the id of an object queued for destruction:
  `LossyCompaction.QueuedObjectCanReturn`.
- A session closed while a record waits for budget can stop its runner before that record is admitted:
  `Shutdown.ClosingCanStrand`. The record then stays in a queue nobody reads and keeps its budget, so no flush and no
  close ever ends: `Shutdown.StrandedForever`. `Shutdown.ClosingIsCleanIff` says from which closed sessions this cannot
  happen.

## Model

| member | source | states |
|---|---|---|
| `Coverage.NoDataLossIff` | picomq/pico-metadata/src/apply.rs:459-1067 | no state of a run from the empty metadata has an offset between a stream's start and end that no committed object holds, exactly when each commit and compaction the run accepts writes or spares what the objects it removes held |
| `Coverage.RunLosesNothingIff` | picomq/pico-metadata/src/apply.rs:459-1067 | the same from any state in which every live offset is held; commands the run refuses are free |
| `Coverage.StepLosesNothingIff` | picomq/pico-metadata/src/apply.rs:35-145 | a command loses no live offset exactly when it is refused or, for a commit or compaction, leaves out nothing that is live of what it removes |
| `Coverage.CommitLosesNothingIff` | picomq/pico-metadata/src/apply.rs:739-981 | an accepted commit keeps every live offset held exactly when what its destroyed and overwritten objects held, up to the new end, is written by it or held by an object that stays; offsets it adds are always held |
| `Coverage.CommitHeldIff` | picomq/pico-metadata/src/apply.rs:839-981 | after a commit an offset is held exactly when a slice, the last entry of a new id, or an object neither destroyed nor overwritten holds it |
| `Coverage.CompactLosesNothingIff` | picomq/pico-metadata/src/apply.rs:983-1067 | an accepted compaction keeps every live offset held exactly when each live offset of a source is in the replacement's range or in an object that stays |
| `Coverage.NoDataLossFromEmpty` | picomq/pico-metadata/src/apply.rs:459-1067 | so a run whose commits give new rows new ids and whose replacements cover what they replace never loses an offset |
| `LossyCompaction.ShortCompactionLosesOffset` | picomq/pico-metadata/src/apply.rs:1012-1024 | a concrete run: a compaction to offsets 0 and 1 of a source that held 0 to 4 is accepted, with all its ids leased, and offset 3 is lost |
| `Coverage.TrimLosesNothing` | picomq/pico-metadata/src/apply.rs:459-522 | a trim, with the objects it destroys, loses no offset that is still live |
| `Coverage.DeleteLosesNothing` | picomq/pico-metadata/src/apply.rs:653-693 | deleting a stream, with its objects, loses no live offset of another stream |
| `ObjectLifecycle.QueuedObjectsNeverReturn` | picomq/pico-metadata/src/apply.rs:784-1117 | when every accepted commit and compaction is disciplined, an id is in one place only in every state, and one once queued for destruction is never leased or committed again |
| `ObjectLifecycle.RunLifecycle` | picomq/pico-metadata/src/apply.rs:719-1117 | the same along any such run, for every id handed out and no longer live, queued or already cleaned |
| `ObjectLifecycle.RunLifecycleIff` | picomq/pico-metadata/src/apply.rs:719-1117 | every step of a run keeps ids in one place and revives none exactly when the commands it accepts are disciplined |
| `ObjectLifecycle.CommitLifecycleIff` | picomq/pico-metadata/src/apply.rs:839-981 | for an accepted commit that is: the set object's id is on lease and every other id is, or is a stream object already |
| `ObjectLifecycle.CompactLifecycleIff` | picomq/pico-metadata/src/apply.rs:983-1067 | for an accepted compaction: sources are, or were, objects of the stream, and the new id is on lease or a source |
| `LossyCompaction.QueuedObjectCanReturn` | picomq/pico-metadata/src/apply.rs:839-859 | a concrete accepted commit that makes an object queued for destruction live again |
| `ObjectLifecycle.CommitExclusiveIff` | picomq/pico-metadata/src/apply.rs:839-981 | an accepted commit keeps ids in one place exactly when it re-uses no destroyed id and commits none that was not handed out |
| `ObjectLifecycle.CompactExclusiveIff` | picomq/pico-metadata/src/apply.rs:983-1067 | an accepted compaction keeps ids in one place exactly when its sources are the stream's own and its new id is not already queued |
| `EpochHistory.RecordedEpochsNeverChange` | picomq/pico-metadata/src/apply.rs:416-522 | between any two moments of a run whose accepted commits move no end backwards, the epoch on record for an offset that is written and not trimmed is the same |
| `EpochHistory.EpochHistoryIsStable` | picomq/pico-metadata/src/apply.rs:416-522 | the same from any state with a sound history, although opens add entries and trims drop them |
| `EpochHistory.NextWriteBelongsIff` | picomq/pico-metadata/src/apply.rs:444-456 | in every run at all, the lookup at an opened stream's end is its current epoch exactly when that epoch began at or below the end |
| `EpochHistory.NextWriteBelongsToCurrentEpoch` | picomq/pico-metadata/src/apply.rs:444-456 | which holds throughout when accepted commits move no end backwards |
| `EpochHistory.StepHistory` | picomq/pico-metadata/src/apply.rs:416-560 | every command, accepted commits that move an end backwards apart, keeps recorded epochs inside their stream and both ends moving forward |
| `EpochHistory.StepGrowsIff` | picomq/pico-metadata/src/apply.rs:35-145 | a command moves both ends of every stream forward exactly when it is refused or no stream's last range in it ends below where the stream ends |
| `EpochHistory.CommitEnds` | picomq/pico-metadata/src/apply.rs:739-779 | an accepted commit leaves each stream ending where its last range does, slices first and stream objects after; a compaction moves no end |
| `EpochHistory.ForwardIsGrowing` | picomq/pico-metadata/src/apply.rs:766-775 | ranges that do not run backwards are enough |
| `BackwardCommits.CommitRewritesHistoryIff` | picomq/pico-metadata/src/apply.rs:416-457 | closing and opening a stream after a commit changes the epoch on record for a live offset exactly when the commit pulled the end down to it or below |
| `BackwardCommits.BackwardCommitRewritesHistory` | picomq/pico-metadata/src/apply.rs:766-775 | a concrete run: a range from 5 back to 2 is accepted, and offset 3, written under epoch 0, ends up on record under epoch 1 |
| `BackwardCommits.BackwardCommitMissesEpoch` | picomq/pico-metadata/src/apply.rs:766-775 | a concrete run after which the next write goes on record under the epoch before the current one |
| `Ownership.SingleWriterPerEpoch` | picomq/pico-metadata/src/apply.rs:416-457 | over a whole run, any two moments at which a stream is OPENED at one epoch agree on the node holding it |
| `Ownership.StreamIdsAreNeverReused` | picomq/pico-metadata/src/apply.rs:301-345 | stream epochs never decrease and a deleted stream id never comes back |
| `Ownership.NonInterference` | picomq/pico-metadata/src/apply.rs:278-299 | while a stream is OPENED on a live node, no run of commands proposed by other nodes changes its state, epoch, owner or start offset, or removes it |
| `Ownership.FailoverSucceeds` | picomq/pico-metadata/src/apply.rs:349-560 | close, place and open one epoch up all succeed for a stream without a live owner, and change its owner and epoch and nothing else |
| `Incarnations.DeadStaysDead` | picomq/pico-metadata/src/apply.rs:251-274 | after an incarnation is fenced or superseded, every command it proposes in any continuation is refused and changes nothing |
| `Incarnations.RegistrationSupersedes` | picomq/pico-metadata/src/apply.rs:147-185 | registering kills the incarnation registered before and makes the new one live |
| `Incarnations.AssignedEpochsIncrease` | picomq/pico-metadata/src/apply.rs:147-185 | along any run each registration of a node gets a strictly higher epoch |
| `Incarnations.StaleFenceNeverLands` | picomq/pico-metadata/src/apply.rs:203-242 | another node's fence naming a count seen before an applied heartbeat is refused in every later state |
| `Incarnations.LeavingAlwaysLands` | picomq/pico-metadata/src/apply.rs:213-242 | a live node can always fence itself, whatever count it names |
| `Redelivery.DuplicateDeliveryIsHarmless` | picomq/pico-metadata/src/command.rs:6-11 | from any state, a command that allocates nothing changes nothing when applied a second time |
| `Redelivery.AllocationsAreNotIdempotent` | picomq/pico-metadata/src/command.rs:6-11 | and every allocating command that lands lands again and changes the state again |
| `Redelivery.CommitTwice` | picomq/pico-metadata/src/apply.rs:861-981 | an accepted commit either makes its repetition an error or did nothing |
| `Redelivery.CompactTwice` | picomq/pico-metadata/src/apply.rs:983-1067 | a compaction accepted twice leaves what it left the first time |
| `Redelivery.TrimTwice` | picomq/pico-metadata/src/apply.rs:459-522 | a trim applied twice finds nothing more to drop: no object, no epoch entry |
| `Redelivery.MarkAllTwice` | picomq/pico-metadata/src/apply.rs:784-823 | marking the same ids again keeps every queue position and operation |
| `Placement.LeastLoadedIsMinimum` | picomq/pico-metadata/src/apply.rs:387-406 | there is a choice exactly when some node is live with slots, and it is the one minimum of (score, node id) |
| `Placement.PlacementFromEmptyIsFair` | picomq/pico-metadata/src/apply.rs:349-406 | over any run of unrequested placements from empty nodes, with commits, trims, creations, key-value and other commands that move no stream between them, the score of a node before its last stream is at most any other node's score now |
| `Placement.PlacementsStayFair` | picomq/pico-metadata/src/apply.rs:349-406 | such runs keep that balance from any balanced state |
| `References.RunRefers` | picomq/pico-metadata/src/apply.rs:2367-2497 | in every reachable state epochs, transfers and stream objects name existing streams, and slices and leases name ids that were handed out |
| `References.NewStreamHasNoBytes` | picomq/pico-metadata/src/state.rs:220-241 | no committed object holds bytes of a stream id not handed out, so a new row starts at zero |
| `CommitAcceptance.CommitAcceptedIff` | picomq/pico-metadata/src/apply.rs:739-981 | a commit is accepted exactly when it has something new, its sources are committed, its ids are no other objects, and its ranges lie inside their streams (a compaction) or chain from where the streams end, slices first; what is refused is redundant exactly when nothing is new, and otherwise unexpected or for a stream that is missing |
| `CommitAcceptance.CompactAcceptedIff` | picomq/pico-metadata/src/apply.rs:983-1067 | a stream-object compaction is accepted exactly when its range lies inside the stream at its epoch, the replacement is no committed object and the operations match the sources; and which error each refusal is |
| `CommitAcceptance.CommitsAreSteps` | picomq/pico-metadata/src/apply.rs:35-145 | both are taken from a current proposer, the commit in the name of its node |
| `CommitEffects.CommitWrites` | picomq/pico-metadata/src/apply.rs:825-981 | the rows an accepted commit leaves, with the oldest data time and the latest write time of its sources; sources gone, ids off lease, everything else of these tables as before |
| `CommitEffects.CommitSparesOthers` | picomq/pico-metadata/src/apply.rs:888-981 | stream objects a commit does not name are as before |
| `CommitEffects.CompactWrites` | picomq/pico-metadata/src/apply.rs:1026-1067 | the replacement with the latest write of those sources that are stream objects; exactly the stream's own sources gone; everything else as before |
| `DestroyQueue.CompactionQueues` | picomq/pico-metadata/src/apply.rs:781-823 | a compaction queues exactly its sources, in their order, each with the last operation given for it, or to be deleted when none are given; an entry already queued keeps its place, and no other changes |
| `DestroyQueue.CommitQueues` | picomq/pico-metadata/src/apply.rs:781-823 | a commit queues exactly the objects it replaces, in their order, to be deleted |
| `DestroyQueue.TrimDrops` | picomq/pico-metadata/src/apply.rs:511-520 | a trim drops exactly the stream's objects that end at or below the new start, and queues them to be deleted by start offset and id |
| `DestroyQueue.DeletionDrops` | picomq/pico-metadata/src/apply.rs:653-693 | deleting a stream does so with exactly its objects |
| `NodeCommands.OnlyCurrentProposers` | picomq/pico-metadata/src/apply.rs:251-274 | every command but a registration is refused from a proposer that is not the registered, unfenced incarnation of its node |
| `NodeCommands.RegistrationSets` | picomq/pico-metadata/src/apply.rs:147-185 | registering always succeeds: which epoch the node gets and the reply names, which fields it keeps and which it sets |
| `NodeCommands.SlotsSet` | picomq/pico-metadata/src/apply.rs:187-201 | slots are set for a registered node and nothing else changes |
| `NodeCommands.HeartbeatCounts` | picomq/pico-metadata/src/apply.rs:203-209 | a heartbeat adds one to its sender's count and changes nothing else |
| `NodeCommands.FenceLandsIff` | picomq/pico-metadata/src/apply.rs:213-242 | a fence lands exactly on a registered, unfenced node at the epoch named, by itself or with its count named; then fenced is all that changes; and which error each refusal is |
| `NodeCommands.SilentNodeIsFenced` | picomq/pico-metadata/src/apply.rs:213-242 | a node seen live and silent since is fenced by any current node naming what was seen, whatever else has happened |
| `NodeCommands.SilentOwnerFailsOver` | picomq/pico-metadata/src/apply.rs:213-560 | and then its streams are closed, placed and opened one epoch up by that node |
| `StreamCommands.OpenAcceptedIff` | picomq/pico-metadata/src/apply.rs:416-457 | opening is accepted exactly for a closed stream at a lower epoch, or again by the node that has it open; and which error each refusal is |
| `StreamCommands.OpenSets` | picomq/pico-metadata/src/apply.rs:416-457 | the row, the epoch recorded at the stream's end, and the reply that describes the stream |
| `StreamCommands.CloseAcceptedIff` | picomq/pico-metadata/src/apply.rs:527-560 | closing is accepted exactly at the stream's epoch, if it is closed or by its owner or when that is not live; only the state changes; and which error each refusal is |
| `StreamCommands.TrimAcceptedIff` | picomq/pico-metadata/src/apply.rs:459-497 | trimming is accepted exactly at the stream's epoch, by its owner or when that is not live, between start and end; and which error each refusal is |
| `StreamCommands.TrimSets` | picomq/pico-metadata/src/apply.rs:459-522 | the start moves; an epoch goes exactly when a later one, and all before that, began at or below the new start; nothing else but objects changes |
| `StreamCommands.PlaceSets` | picomq/pico-metadata/src/apply.rs:349-406 | a stream that is open or on a live node stays; another goes to the node asked for, or to the one with the fewest streams per slot and then the lowest id; exactly when there is none placing fails |
| `StreamCommands.TransferSets` | picomq/pico-metadata/src/apply.rs:565-611 | a transfer is recorded exactly for an open stream of the node named to another that can take it, or repeated; and which error each refusal is |
| `StreamCommands.CompletionSets` | picomq/pico-metadata/src/apply.rs:616-647 | a transfer is completed exactly for a closed stream at its epoch, which then is on the node named; and which error each refusal is |
| `StreamCommands.DeleteSets` | picomq/pico-metadata/src/apply.rs:653-693 | deleting is accepted exactly for a missing stream, or a closed one at its epoch by whoever is in charge; row, transfer and epochs go; and which error each refusal is |
| `StreamCommands.CreationSets` | picomq/pico-metadata/src/apply.rs:301-345 | 1 to 4096 closed, empty, unplaced streams under the next ids, of which the first is the reply |
| `ObjectCommands.PrepareLeases` | picomq/pico-metadata/src/apply.rs:719-737 | leases for the next ids until the time to live is over |
| `ObjectCommands.ExpiryEndsLeases` | picomq/pico-metadata/src/apply.rs:1094-1107 | exactly the leases due are ended and counted |
| `ObjectCommands.CleaningEmptiesQueue` | picomq/pico-metadata/src/apply.rs:1109-1117 | exactly the objects named leave the queue, the others keep their places |
| `ObjectCommands.PutsAndDeletes` | picomq/pico-metadata/src/apply.rs:1119-1142 | what each leaves under the key, and its reply |
| `ObjectCommands.ConditionalsSwap` | picomq/pico-metadata/src/apply.rs:1144-1169 | conditional puts and deletes land exactly on the value they expect |
| `ObjectCommands.ProducerIdsHandedOut` | picomq/pico-metadata/src/apply.rs:700-717 | blocks of 1 to 4096 producer ids, the first being the reply |
| `ObjectCommands.HandedOutOnce` | picomq/pico-metadata/src/apply.rs:301-345 | over any run no stream id, object id or producer id is handed out twice |
| `Audit.SliceAuditIff` | picomq/pico-metadata/src/apply.rs:2425-2447 | the audit's form of the slice index, every slice recorded and as many records as slices, holds exactly when no row has two slices of one stream with one start |
| `Audit.StepAuditIff` | picomq/pico-metadata/src/apply.rs:888-957 | an accepted command keeps the audit passing exactly when the slices it commits start in different places |
| `Audit.RunAudit` | picomq/pico-metadata/src/apply.rs:2367-2497 | so it passes after every run whose commits do |
| `Audit.AuditCanFail` | picomq/pico-metadata/src/apply.rs:2425-2447 | a concrete accepted run after which the audit fails |
| `Audit.RangeBytes` | picomq/pico-metadata/src/apply.rs:2463-2476 | with distinct starts, each stream's slice bytes add up from the slice index alone |
| `Rebuild.IndexesAreDetermined` | picomq/pico-metadata/src/apply.rs:2365-2367 | every index and counter is a function of the primary tables |
| `MetadataStore.Replica.Apply` | picomq/pico-metadata/src/apply.rs:21-33 | the primary tables become what the specification's step gives, with its reply; every index equals what is derived; an error leaves the very same state |
| `MetadataStore.Replica.Replay` | picomq/pico-metadata/src/apply.rs:25-33 | replaying a log equals the specification's run and keeps every index derived |
| `MetadataStore.MetadataState.ApplyInner` | picomq/pico-metadata/src/apply.rs:35-145 | the proposer check and the dispatch: the reply and, unless an error, the tables are the specification's; indexes stay derived even when the tables are left part-written |
| `MetadataStore.MetadataState.PutStream` | picomq/pico-metadata/src/state.rs:220-241 | stores the row under its byte count and moves it between the node indexes and counts |
| `MetadataStore.MetadataState.RemoveStream` | picomq/pico-metadata/src/state.rs:243-247 | drops the row and its entries in the node indexes and counts |
| `MetadataStore.MetadataState.Index` | picomq/pico-metadata/src/state.rs:353-363 | adds one row to the opened or placed index and to its node's count |
| `MetadataStore.MetadataState.Unindex` | picomq/pico-metadata/src/state.rs:365-381 | removes one row from them, dropping a count that reaches zero |
| `MetadataStore.MetadataState.PutPrepared` | picomq/pico-metadata/src/state.rs:249-252 | enters the lease in the table and in the deadline index; the index stays derived exactly when the id was not on lease with another deadline |
| `MetadataStore.MetadataState.RemovePrepared` | picomq/pico-metadata/src/state.rs:254-258 | removes a lease from both |
| `MetadataStore.MetadataState.StoreStreamObject` | picomq/pico-metadata/src/state.rs:292-303 | a row replaces whatever row its id had, under its new key, with per-stream and total bytes following |
| `MetadataStore.MetadataState.DropStreamObject` | picomq/pico-metadata/src/state.rs:305-315 | removes the row, its key and its bytes |
| `MetadataStore.MetadataState.StoreSetObject` | picomq/pico-metadata/src/state.rs:260-275 | stores the row and records its slices in order, with per-stream and total bytes following |
| `MetadataStore.MetadataState.DropSetObject` | picomq/pico-metadata/src/state.rs:277-290 | removes the row, its slice records and its bytes |
| `MetadataStore.MetadataState.AddStreamBytes` | picomq/pico-metadata/src/state.rs:317-321 | counts bytes for a stream that still exists |
| `MetadataStore.MetadataState.RemoveStreamBytes` | picomq/pico-metadata/src/state.rs:323-327 | takes bytes off a stream that still exists; the counter wraps when they were not counted |
| `MetadataStore.MetadataState.PutDestroyed` | picomq/pico-metadata/src/state.rs:329-332 | enters an object in the queue and in the index by id |
| `MetadataStore.MetadataState.RemoveDestroyed` | picomq/pico-metadata/src/state.rs:334-338 | takes an object out of both |
| `MetadataStore.MetadataState.StoreKv` | picomq/pico-metadata/src/state.rs:340-345 | replaces a value and keeps the byte total exact |
| `MetadataStore.MetadataState.DropKv` | picomq/pico-metadata/src/state.rs:347-351 | removes a value and keeps the byte total exact |
| `MetadataStore.MetadataState.RegisterNode` | picomq/pico-metadata/src/apply.rs:147-185 | the node row with the assigned epoch, unset fields kept |
| `MetadataStore.MetadataState.SetNodeSlots` | picomq/pico-metadata/src/apply.rs:187-201 | changes the slots of a known node only |
| `MetadataStore.MetadataState.Heartbeat` | picomq/pico-metadata/src/apply.rs:203-209 | counts one heartbeat of a known node |
| `MetadataStore.MetadataState.FenceNode` | picomq/pico-metadata/src/apply.rs:213-242 | fences the incarnation and count named, or a node leaving, and refuses otherwise |
| `MetadataStore.MetadataState.CreateStream` | picomq/pico-metadata/src/apply.rs:301-314 | a new closed, unplaced row under the next id |
| `MetadataStore.MetadataState.CreateStreams` | picomq/pico-metadata/src/apply.rs:320-345 | consecutive new rows, or a refusal outside 1 to 4096 |
| `MetadataStore.MetadataState.NodeScore` | picomq/pico-metadata/src/apply.rs:393-394 | streams on the node, times a thousand over its slots, read from the counter |
| `MetadataStore.MetadataState.FindLeastLoaded` | picomq/pico-metadata/src/apply.rs:387-406 | the loop over the nodes finds the one minimum of (score, node id) over eligible nodes |
| `MetadataStore.MetadataState.ChooseNode` | picomq/pico-metadata/src/apply.rs:363-370 | the node asked for if it can take streams, else none; without a wish the least loaded |
| `MetadataStore.MetadataState.PlaceStream` | picomq/pico-metadata/src/apply.rs:349-383 | keeps an opened stream or one on a live node, else moves it to the chosen node |
| `MetadataStore.MetadataState.OpenStream` | picomq/pico-metadata/src/apply.rs:416-457 | opens at a higher epoch and records where it starts; repeats harmlessly; refuses stale epochs and streams already open |
| `MetadataStore.MetadataState.TrimStream` | picomq/pico-metadata/src/apply.rs:459-522 | moves the start, drops superseded epoch entries and destroys the objects wholly below, in scan order |
| `MetadataStore.MetadataState.DropSupersededEpochs` | picomq/pico-metadata/src/apply.rs:499-509 | drops every entry a later one started at or below the offset supersedes |
| `MetadataStore.MetadataState.DestroyBelow` | picomq/pico-metadata/src/apply.rs:511-520 | the stream's objects ending at or below the offset leave the table and join the queue in key order |
| `MetadataStore.MetadataState.CloseStream` | picomq/pico-metadata/src/apply.rs:527-560 | closes at the current epoch, for the owner or anyone once it is not live |
| `MetadataStore.MetadataState.TransferStream` | picomq/pico-metadata/src/apply.rs:565-611 | records a transfer of an opened stream to a live node with slots |
| `MetadataStore.MetadataState.CompleteTransfer` | picomq/pico-metadata/src/apply.rs:616-647 | repoints a closed stream and clears the transfer |
| `MetadataStore.MetadataState.DeleteStream` | picomq/pico-metadata/src/apply.rs:653-693 | removes the row, its transfer, epochs and objects; nothing to do for a missing stream |
| `MetadataStore.MetadataState.AllocateProducerIds` | picomq/pico-metadata/src/apply.rs:700-717 | hands out a block of producer ids, or refuses a count outside the bounds |
| `MetadataStore.MetadataState.PrepareObject` | picomq/pico-metadata/src/apply.rs:719-737 | leases consecutive new ids under one deadline |
| `MetadataStore.MetadataState.AdvanceEndOffset` | picomq/pico-metadata/src/apply.rs:739-779 | moves the end to follow the range, or for a compaction checks the range lies inside |
| `MetadataStore.MetadataState.MarkObjectDestroyed` | picomq/pico-metadata/src/apply.rs:781-794 | a queued object keeps its place and gets the new operation, another goes to the end |
| `MetadataStore.MetadataState.MarkSources` | picomq/pico-metadata/src/apply.rs:796-823 | marks all with their operations, or with Delete throughout, or refuses lists of different lengths |
| `MetadataStore.MetadataState.CommitStreamSetObject` | picomq/pico-metadata/src/apply.rs:888-981 | the reply and the tables after destroying, advancing, storing; the first failing check decides the error |
| `MetadataStore.MetadataState.CompactStreamObject` | picomq/pico-metadata/src/apply.rs:983-1067 | the replacement goes in with the latest write of its sources, the stream's own sources come out and are queued |
| `MetadataStore.MetadataState.ExpirePreparedObjects` | picomq/pico-metadata/src/apply.rs:1094-1107 | removes and counts exactly the leases due |
| `MetadataStore.MetadataState.CleanDestroyedObjects` | picomq/pico-metadata/src/apply.rs:1109-1117 | forgets the given queued objects and no others |
| `MetadataStore.MetadataState.PutKv` | picomq/pico-metadata/src/apply.rs:1119-1126 | stores and returns the value |
| `MetadataStore.MetadataState.PutKvIfAbsent` | picomq/pico-metadata/src/apply.rs:1128-1138 | keeps and returns a present value |
| `MetadataStore.MetadataState.DeleteKv` | picomq/pico-metadata/src/apply.rs:1140-1142 | returns what was removed |
| `MetadataStore.MetadataState.PutKvIfMatches` | picomq/pico-metadata/src/apply.rs:1144-1156 | swaps the expected value and refuses another or none |
| `MetadataStore.MetadataState.DeleteKvIfMatches` | picomq/pico-metadata/src/apply.rs:1158-1169 | removes the expected value and refuses another or none |
| `Names.CanonicalStartsWith` | picomq/pico-common/src/name.rs:20-24 | the walk in step over both spellings decides whether one canonical form is a prefix of the other |
| `Names.StripCanonicalPrefix` | picomq/pico-common/src/name.rs:26-33 | cuts exactly when the canonical prefix matches, within range, and what is left continues it |
| `Names.StripCutsBetweenCharacters` | picomq/pico-common/src/name.rs:26-33 | for UTF-8 names the cut falls on a character boundary |
| `Names.CanonicalEqIff` | picomq/pico-common/src/name.rs:1-18 | two spellings are one name exactly when, without one leading slash, they differ only in slashes against dots |
| `Names.CanonicalPrefixIff` | picomq/pico-common/src/name.rs:20-24 | and one name continues another exactly when it does so in that sense |
| `Scopes.MatcherContainsExactly` | picomq/pico-auth/src/scope.rs:188-196 | matcher containment holds exactly when every UTF-8 name the child matches the parent matches; a refusal has a name that escapes |
| `Scopes.SetContainsSound` | picomq/pico-auth/src/scope.rs:238-250 | every name of a contained set is a name of the containing one |
| `Inclusion.SetInclusionIff` | picomq/pico-auth/src/scope.rs:233-236 | a set's names are included exactly when each exact name is matched and each prefix has a full tree: covered, or listed together with every one-character continuation's tree |
| `Inclusion.SetContainsExactIff` | picomq/pico-auth/src/scope.rs:238-250 | set containment implies inclusion, and differs from it exactly when all of the child is accounted for and some prefix of it only by a full tree |
| `Inclusion.ExactForEveryChildIff` | picomq/pico-auth/src/scope.rs:238-250 | a parent decides inclusion of every child exactly when it has no uncovered prefix with a full tree |
| `Inclusion.SetContainsExactly` | picomq/pico-auth/src/scope.rs:238-250 | which takes more matchers than there are Unicode characters: up to 1112064, for canonical names 1112063, containment is inclusion |
| `Inclusion.ManyMatchersEscape` | picomq/pico-auth/src/scope.rs:238-250 | a set with one matcher more, the empty name and a prefix per character, for which inclusion holds while containment is refused |
| `Inclusion.StreamsContainExactIff` | picomq/pico-auth/src/scope.rs:346-362 | the same for the streams of two scopes, over stream names in either spelling |
| `Scopes.SetContainsTransitive` | picomq/pico-auth/src/scope.rs:238-250 | containment of sets is transitive |
| `Scopes.AllowsCanonically` | picomq/pico-auth/src/scope.rs:346-362 | a stream is allowed exactly when its canonical form is matched by the canonical set, whichever spelling is used |
| `Rights.RightsAre` | picomq/pico-auth/src/scope.rs:57-95 | the rights of a scope, operation by operation: which flag gives it, or which explicit operation, describing included, and nothing else |
| `Rights.StreamFlagsKeepApart` | picomq/pico-auth/src/scope.rs:314-320 | with flags alone, reading a stream is exactly Read, Head and List, and writing exactly Create, Append, Trim, Close, Delete and Head |
| `Rights.OtherFlagsKeepApart` | picomq/pico-auth/src/scope.rs:314-320 | the same for tokens, groups and administration |
| `Rights.OperationAdds` | picomq/pico-auth/src/scope.rs:314-324 | one more explicit operation adds itself and, on streams and groups, the right to describe |
| `Rights.PermittedIff` | picomq/pico-auth/src/scope.rs:306-351 | a request is permitted exactly with the right, a resource the scope names, a listener it is for, and before it expires |
| `Rights.ContainsIff` | picomq/pico-auth/src/narrow.rs:14-47 | part by part, exactly when a scope contains another: flags need flags, explicit operations any way of having the right |
| `Rights.IssuedIff` | picomq/pico-auth/src/narrow.rs:49-69 | exactly when a token is issued, and when it is denied or malformed |
| `Narrowing.ContainedPermitsLess` | picomq/pico-auth/src/narrow.rs:14-43 | whatever a contained scope permits, implied describe rights, both spellings, audience and time included, its container permits |
| `Narrowing.RightsNarrow` | picomq/pico-auth/src/scope.rs:314-324 | a right on a kind of resource implies the container has one, which is what describing rests on |
| `Narrowing.ContainsTransitive` | picomq/pico-auth/src/narrow.rs:14-43 | containment of scopes is transitive |
| `Narrowing.ContainsItselfIff` | picomq/pico-auth/src/narrow.rs:14-47 | a scope contains itself exactly when it does not ask for prefixing without a prefix |
| `Narrowing.DelegationNeverWidens` | picomq/pico-auth/src/narrow.rs:49-69 | down any chain of accepted issuing, what a token permits every ancestor permits |
| `Narrowing.IssuedIdsStayInside` | picomq/pico-auth/src/narrow.rs:49-69 | and its id is one every ancestor may name, its operations and audiences non-empty subsets of theirs |
| `AutoPrefix.ResolvesTo` | picomq/pico-auth/src/scope.rs:372-392 | a name resolves to the prefix and the name as one path: its leading slashes do not count, one slash joins them, and no name is the prefix itself |
| `AutoPrefix.ResolvesIff` | picomq/pico-auth/src/scope.rs:372-392 | without prefixing a name is itself; prefixing without one prefix is denied |
| `AutoPrefix.StripsTo` | picomq/pico-auth/src/scope.rs:394-407 | a stored name loses the prefix exactly where it has it, by either spelling for streams |
| `AutoPrefix.ResolvedIsInside` | picomq/pico-auth/src/scope.rs:372-392 | every client name resolves to a name the scope matches |
| `AutoPrefix.RoundTrip` | picomq/pico-auth/src/scope.rs:372-407 | resolving what was stripped from a resolved name gives that name back |
| `AutoPrefix.ResolveInjective` | picomq/pico-auth/src/scope.rs:372-392 | two client names reach one stored name exactly when they differ in leading slashes |
| `AutoPrefix.TenantsAreApart` | picomq/pico-auth/src/scope.rs:372-392 | scopes with incomparable canonical prefixes never resolve to one canonical stream |
| `TokenCodec.DecodeEncodeIff` | picomq/pico-auth/src/record.rs:40-76 | a record the program can hold is read back from its encoding exactly when its id length is acceptable |
| `TokenCodec.ScopeReadsBack` | picomq/pico-auth/src/record.rs:78-131 | an encoded scope is read back, whatever bytes follow |
| `TokenCodec.OperationReadsBack` | picomq/pico-auth/src/record.rs:195-240 | every operation tag is read back, the gap in the numbering included |
| `TokenCodec.StrReadsBack` | picomq/pico-auth/src/record.rs:261-290 | a length-prefixed string is read back |
| `TokenFraming.DecodableIsPrefixFree` | picomq/pico-auth/src/record.rs:50-68 | of any bytes that decode, no proper prefix and no extension decodes |
| `TokenFraming.EncodingIsSelfDelimiting` | picomq/pico-auth/src/record.rs:40-68 | an encoding decodes to its record while nothing shorter or longer does |
| `WireFormat.ReadIsStorable` | picomq/pico-auth/src/record.rs:50-76 | whatever decodes is a record the program can hold, with an id of 1 to 96 bytes and a verifier of 32 |
| `WireFormat.RewritingKeepsRecord` | picomq/pico-auth/src/record.rs:40-68 | encoding what was decoded decodes to the same record, whatever bytes it came from |
| `WireFormat.SampleBytes` | picomq/pico-auth/src/record.rs:40-94 | the bytes of one record with every kind of field, in their order, sets in order of declaration |
| `WireFormat.OperationTags` | picomq/pico-auth/src/record.rs:195-240 | the tag of each operation, both ways |
| `WireFormat.OtherTags` | picomq/pico-auth/src/record.rs:218-259 | exactly the other bytes are malformed as operations and as audiences |
| `WireFormat.FlagReads` | picomq/pico-auth/src/record.rs:117-120 | a flag is set by 1 and by no other byte |
| `WireFormat.StringReads` | picomq/pico-auth/src/record.rs:281-290 | exactly which bytes read as a string, and which string |
| `TokenBuffers.EncodeRecord` | picomq/pico-auth/src/record.rs:40-48 | the appending encoder writes the specified encoding |
| `TokenBuffers.DecodeRecord` | picomq/pico-auth/src/record.rs:50-68 | the decoder moving along a buffer computes the specified decoding of any bytes, never reading past the end |
| `TokenBuffers.Reader.GetResourceSet` | picomq/pico-auth/src/record.rs:149-165 | the counting loop reads the specified list or fails with it |
| `TokenBuffers.Reader.GetOperations` | picomq/pico-auth/src/record.rs:105-108 | the loop collects the set of the operations listed, or fails at the first bad tag |
| `TokenBuffers.Reader.GetStr` | picomq/pico-auth/src/record.rs:281-290 | reads a string, refusing negative or excessive lengths and bytes that are not UTF-8 |
| `TokenBuffers.Writer.PutScope` | picomq/pico-auth/src/record.rs:78-94 | appends the specified encoding of a scope |
| `TokenBuffers.OperationsCounted` | picomq/pico-auth/src/record.rs:83-86 | the count written is the number of tags written |
| `RangeScan.PageIsFilter` | picomq/pico-auth/src/store.rs:99-117 | a page is the first keys, in order, with the prefix and past the given one, wherever that one lies |
| `RangeScan.AllPages` | picomq/pico-auth/src/store.rs:99-117 | following pages by their last key enumerates every match once, in order |
| `RangeScan.NextPage` | picomq/pico-metadata/src/query.rs:252-268 | the page after the k-th match holds the matches that follow it |
| `TokenStore.MemoryTokenStore.ListPage` | picomq/pico-auth/src/store.rs:99-117 | the records of that page |
| `TokenStore.MemoryTokenStore.Put` | picomq/pico-auth/src/store.rs:78-86 | inserts an absent valid id and says whether it wrote |
| `TokenStore.MemoryTokenStore.Delete` | picomq/pico-auth/src/store.rs:88-97 | removes only under the stored verifier |
| `TokenStore.StoreAnswers` | picomq/pico-auth/src/store.rs:64-97 | a record is written exactly under a free id of 1 to 96 bytes and removed exactly under its verifier, and the answer says so |
| `TokenStore.RevokedIsGone` | picomq/pico-auth/src/store.rs:88-97 | a revoked token stays away until its id is issued again |
| `TokenStore.RecordStandsUntilRevoked` | picomq/pico-auth/src/store.rs:78-97 | through any operations a stored record stays as it is until its own credential is revoked |
| `TokenStore.FirstWriteWins` | picomq/pico-auth/src/store.rs:78-86 | until then every other write of the id reports that it did not write |
| `OrderedWriter.ReplyWriter.Receive` | picomq/pico-kafka/src/listener.rs:310-328 | one arrival: buffered, then everything next in line written, up to a Close or a refused frame |
| `OrderedWriter.WritesInOrder` | picomq/pico-kafka/src/listener.rs:310-328 | for any arrival order, what is written is the frames of requests 0, 1, 2, … up to the first missing reply, the first Close or the refused frame |
| `OrderedWriter.OrderDoesNotMatter` | picomq/pico-kafka/src/listener.rs:310-328 | two orders of the same replies leave the same output, place in line and buffer |
| `OrderedWriter.NothingLeftOver` | picomq/pico-kafka/src/listener.rs:310-328 | when all have arrived and none is Close the buffer is empty |
| `Pipeline.OrderedReplies` | picomq/pico-kafka/src/listener.rs:132-328 | in every run of reader, tasks, produce worker and writer the output is the frames in request order |
| `Pipeline.InFlightIsBounded` | picomq/pico-kafka/src/listener.rs:114-155 | unanswered requests never exceed the number configured, or one, no channel is ever full when something is about to be sent, and a permit is free exactly below that number |
| `Pipeline.BoundIsReached` | picomq/pico-kafka/src/listener.rs:114-155 | there is a run with just so many requests unanswered |
| `Pipeline.ReadingEnds` | picomq/pico-kafka/src/listener.rs:132-225 | exactly what ends reading |
| `Pipeline.StoppedReadsNoMore` | picomq/pico-kafka/src/listener.rs:132-225 | and then no request is read any more |
| `Pipeline.SomebodyCanMove` | picomq/pico-kafka/src/listener.rs:149-155 | while a request is unanswered something other than the reader can take a step, so no permit is waited for in vain |
| `Pipeline.AnsweringEnds` | picomq/pico-kafka/src/listener.rs:226-328 | and each such step is one of finitely many |
| `Pipeline.EverythingIsAnswered` | picomq/pico-kafka/src/listener.rs:119-128 | when the reader is done and nothing is under way every request is answered and the buffer is empty |
| `Pipeline.ProduceInOrder` | picomq/pico-kafka/src/listener.rs:226-236 | produce requests are dispatched in the order they were read |
| `Pipeline.StepAccounts` | picomq/pico-kafka/src/listener.rs:149-328 | every step keeps each unanswered request in exactly one place, holding exactly one permit |
| `Budget.Semaphore.Take` | client/typescript/src/producer.ts:324-347 | grants at once when there is enough, else queues; refuses more than the capacity |
| `Budget.Semaphore.Give` | client/typescript/src/producer.ts:349-352 | returns permits and serves the queue from the front |
| `Budget.Semaphore.PumpQueue` | client/typescript/src/producer.ts:355-362 | serves waiters in order for as long as there is enough |
| `Budget.PumpServesInOrder` | client/typescript/src/producer.ts:349-362 | whoever a release serves was first in line, and holds what it asked for |
| `Budget.ReleaseIsSound` | client/typescript/src/producer.ts:349-362 | a release keeps free plus held equal to the capacity and leaves nobody at the head who could be served |
| `Budget.NothingHeldNobodyWaits` | client/typescript/src/producer.ts:316-363 | nobody waits for a budget nobody holds |
| `Producer.BudgetHolds` | client/typescript/src/producer.ts:84-141 | in every run free plus held budget is the capacity, and the first waiter asks for more than is free |
| `Producer.FlushMeansSettled` | client/typescript/src/producer.ts:123-141 | when a flush or a close is granted, every record pushed so far is settled and no other holds budget |
| `Producer.BatchesKeepOrder` | client/typescript/src/producer.ts:160-243 | in every run batches, the record handed over and the queue are what was pushed, in order, each record once; every batch is non-empty and within both limits |
| `Producer.BatchesAreSequenced` | client/typescript/src/producer.ts:195-211 | batches are sent in number order, none besides 0 before 0 is settled, never more under way than allowed |
| `ProducerRules.SendAsks` | client/typescript/src/producer.ts:84-117 | a record is taken exactly if it fits the budget and a batch, and granted at once if so much is free, or else waits as the last |
| `ProducerRules.WholeBudgetAsks` | client/typescript/src/producer.ts:123-141 | a flush and a close are granted at once exactly when nothing is in use, and else wait as the last |
| `ProducerRules.SendsStop` | client/typescript/src/producer.ts:143-148 | no record is taken after a close |
| `ProducerRules.SettlingFrees` | client/typescript/src/producer.ts:245-273 | a settled batch gives back the shares of its records and of no others |
| `ProducerRules.BatchesAreFull` | client/typescript/src/producer.ts:213-243 | unless its time is up a batch goes out only when it has its records or bytes, the next record does not fit, or there is none to wait for |
| `ProducerRules.CollectingTakes` | client/typescript/src/producer.ts:213-243 | and until then it takes the next record |
| `ProducerRules.WaitingIsForMore` | client/typescript/src/producer.ts:169-193 | the runner waits only with an empty queue and an open session, for a first record or while lingering |
| `ProducerRules.SendingIsNotHeldBack` | client/typescript/src/producer.ts:195-211 | a batch is sent exactly when fewer are under way than may be, the first in any case |
| `ProducerRules.SessionCanMove` | client/typescript/src/producer.ts:195-243 | while a record is queued, collected or under way the session can take a step |
| `Shutdown.ClosingIsCleanIff` | client/typescript/src/producer.ts:129-211 | for every reachable closed session that has left nothing behind: no continuation leaves a record in a queue nobody reads exactly when every record was pushed, or just one is missing and the runner waits for it |
| `Shutdown.SafeRun` | client/typescript/src/producer.ts:129-211 | from such a session the runner only ever stops at an empty queue, and it stays empty |
| `Shutdown.Drain` | client/typescript/src/producer.ts:195-243 | every closed session whose runner is not waiting for a first record can run until the runner stops, without another record pushed |
| `Shutdown.AdmitOne` | client/typescript/src/producer.ts:123-127 | settling batches and ending flushes admits some record that waits for budget |
| `Shutdown.ClosedMeansPushed` | client/typescript/src/producer.ts:129-141 | a close is granted the budget only when every record asked for was pushed |
| `Shutdown.StrandedForever` | client/typescript/src/producer.ts:129-211 | a record left behind stays queued and keeps its budget in every continuation, and no flush or close ends any more |
| `Shutdown.ClosingCanStrand` | client/typescript/src/producer.ts:129-189 | a concrete run of two records in which closing leaves the second behind |
| `Producer.Outbox.CollectNow` | client/typescript/src/producer.ts:213-228 | without linger a batch is a prefix of the queue, within the limits and as long as they allow; what does not fit goes back |
| `Producer.Outbox.TryRecv` | client/typescript/src/producer.ts:191-193 | takes the head of the queue if there is one |

## Left out

- Producer.BatchesKeepOrder: does not say that a pushed record is eventually batched; after closing it need not be.
- Shutdown.ClosingIsCleanIff: any step that is possible may come next; in which order the event loop takes those that are ready together is not modelled.
- Pipeline.OrderedReplies: frames are whole values; how a frame is read, parsed and written byte by byte is not modelled.
- Pipeline.SomebodyCanMove: says a step is possible, not that handlers terminate.
- Overflow of counters and offsets, and the text of error messages.
- Authentication on a Kafka connection: what the reader decides for a request is one of four outcomes, chosen freely.
- The end of a connection: when the writer ends the reader stops at once.
- Timers, retries, backoff and the failed flag of the producer session: a deadline may pass and a batch may settle at any time, with either outcome.
- Locks and task scheduling of the token store: one operation at a time.
- Snapshots, log records, queries other than paging, sinks and views of the metadata service.
- The JSON form of scopes, token secrets, hashing and comparison of verifiers, which are opaque bytes here.
- HTTP and connection listeners, the command line, the console, the other clients: plumbing over services that are not part of this model, or easier variants of what is.
