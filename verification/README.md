# Vaylix: the replicated log and the storage engine, modelled in Dafny

Vaylix is a key-value store with a write-ahead log, snapshots, leader election and log replication.  This project
models the parts where a mistake loses or invents data, and proves what they promise over every run.

Three layers, each an imperative model proved against functions, and lemmas about those functions:

- **Replication** (`Quorum`, `Replication`, `Cluster`, `ClusterLimits`, `ClusterCounters`, `ClusterLogs`, `Append`,
  `CatchUp`, `LogMatching`): one node's replication state as an object whose handlers change its fields; a cluster of
  such nodes as a state machine with lost, repeated and reordered messages, failed durable writes and restarts; the
  append handler, and what appends, fetched pages, snapshots and rollbacks do to logs across the cluster.
- **Engine** (`Keyspace`, `LiveState`, `Commands`, `Meaning`, `Evaluator`, `Direct`, `Batch`, `LogCache`, `Suffix`,
  `Engine`): the store, the operations a log entry carries, the two command interpreters and what commands mean, undo,
  the log cache, and an engine object with transactions, batches, snapshots and the two ways a follower takes entries.
- **Files and threads** (`Wal`, `WalWriting`, `Framing`, `Storage`, `Worker`, `Serving`, `ReadIndex`, `Glob`):
  segments, frames, the worker thread's queues, the committed read index, key patterns.

`Lag`, `Overlap`, `Recovery`, `EngineRuns`, `FollowerAppend`, `IndexRuns` and `Cas` join these up: they follow whole
runs of an engine and compare its store, and the read index, with the fold of its whole log.

The main results:

- At most one node wins a term, in every run of a cluster of two or more voters, for every term below `u64::MAX`
  (`Cluster.ElectionSafety`); at `u64::MAX` the saturating term counter lets two win (`ClusterLimits`).
- Every commit point is backed by a quorum whose members each held, and acknowledged to that leader in its term, at
  least that sequence (`Cluster.CommitSoundness`).
- Whoever wins a term had a log that ended no earlier than that of any voter that elected it
  (`ClusterLogs.WinnerIsUpToDate`).
- A leader that is refused finds the last entry its follower shares in at most as many refusals as there are entries
  before its guess, and the follower then gets the whole log exactly when its snapshot is not in the way (`CatchUp`).
- A node's term and commit point never fall until it restarts; over every run, restarts included, terms never fall
  exactly when each restart finds the current term on disk, and commit stays within applied exactly when applied is
  never set below it (`ClusterCounters`).
- Log matching and truthful acknowledgements hold over every careful run, and each step of the protocol keeps their
  invariant exactly when it is careful: an append that names no entry before it, or a fetched page, joins at an entry
  both logs have, and a leader rolls back only what nobody else holds (`LogMatching`).  The code checks none of the
  three, and each has a run in which two logs diverge.
- The live store, the fold of the whole log and a recovered store show the same live entries, over every interleaving
  of command queues, direct commands, sweeps, snapshots, pruning, restarts, replicated appends and suffix replacements
  that meets the stated conditions (`Recovery`).  A restart comes up and shows the log exactly when `RestartHarmless`
  holds of the snapshot and the retained log.
- The read index answers as the engine does over every run in which no page skips an entry and no replaced suffix
  changes what the index holds; the index's sequence number is honest exactly then (`IndexRuns`).
- Every command means, on the values, deadlines and versions of keys alone, what `Meaning` says it does: when a written
  key expires, what TTL answers, what is moved and what is kept.
- Each request of a group of writes is answered once, with its own reply and its own place in the log (`Serving`).
- Transactions, batches, direct writes, follower appends, suffix replacements, snapshots and reopenings of the engine
  object are steps, or runs of steps, of that recovery model (`EngineRuns`; a failed batch exactly when no CLEAR ran
  after a change), and an accepted append makes a follower's log the leader's exactly when it joins at a shared entry
  (`FollowerAppend`).
- Replay of the segment directory returns exactly a suffix of what was ever appended, whatever order the directory is
  listed in (`Wal`, `WalWriting`); read from bytes, with the open file cut anywhere, it returns everything before the
  cut or fails (`Storage`).

Some expectations turn out false of the code.  Each has a concrete run or input, beside the condition under which the
code does meet the expectation (most of them exact, in the members named `...Exactly`):
`ClusterLimits.TwoWinnersAtSaturation`, `ClusterCounters.LostWriteLowersTerm`, `ClusterCounters.CommitPassesApplied`,
`LogMatching.FetchDiverges`, `LogMatching.PrunedAppendDiverges`, `LogMatching.RollbackDiverges`,
`LogMatching.RepeatedAppendWithdraws`, `CatchUp.PrunedFollowerStuck`, `Recovery.RestartCountsTwice`,
`Recovery.RestartRefused`, `Recovery.EarlySweepLosesAKey`, `IndexRuns.ReplacedEntryStays`,
`IndexRuns.PrunedEntryMissing`, `Lag.StaleCounterDiverges`, `Overlap.UnguardedReplayFails`,
`Commands.ReplayDivergesAtLastInstant`, `Keyspace.UndoLosesPreImages`, `Batch.BatchUndoLosesPreImages`,
`Cas.CasAfterRecreation`, `Cas.CasAtSaturation`, `WalWriting.FloorLeavesAGap`, `Worker.SecondDrainOvertakes`.

Conventions.  Clock readings, the outcome of a durable write, directory order and request arrival are inputs.
Entry checksums, payload codecs and the frame hash are function parameters.  `u64` arithmetic that saturates in the
source saturates here.  Automatic induction is off in every lemma, so each proof is the one written down.  `LLM.md`
lists sealing the active segment before serializing the snapshot; the code saves the snapshot first, and the model
follows the code.

`dafny verify dfyconfig.toml` checks the whole project.

## Model

| member | source | states |
|---|---|---|
| Quorum.QuorumsIntersect | crates/server/src/replication/quorum.rs:60-74 | any two quorums of one membership share a voter |
| Quorum.SortAscending | crates/server/src/replication/quorum.rs:39-51 | the sorted vector is ascending and reaches every threshold as often as the input |
| Quorum.VoterMatchSequences | crates/server/src/replication/quorum.rs:20-37 | one match sequence per voter: as many of them reach any point as there are voters that do |
| Quorum.NthHighestVoterMatch | crates/server/src/replication/quorum.rs:39-51 | the value is the greatest sequence that at least a quorum of voters has reached |
| Quorum.MinVoterMatch | crates/server/src/replication/quorum.rs:53-58 | the value is the greatest sequence that every voter has reached |
| Quorum.ReachedPointIsGreatest | crates/server/src/replication/quorum.rs:5-51 | the point searched for by the specification is reached by enough voters and no higher point is |
| Quorum.ReachedPointUnique | crates/server/src/replication/quorum.rs:5-51 | there is only one such point |
| Replication.ReplicationRuntime.constructor | crates/server/src/replication/mod.rs:282-382 | a node starts with its durable term, vote and members when it has any, adding only itself if it advertises; as a follower when it has voting peers; with nothing applied, committed or known of others |
| Replication.ReplicationRuntime.PersistState | crates/server/src/replication/persistence.rs:22-41 | the durable record becomes the current term, vote and members, unless the write is lost |
| Replication.ReplicationRuntime.RecomputeCommitSequence | crates/server/src/replication/quorum.rs:5-18 | the commit point never falls, and is raised to exactly the greatest sequence applied here that enough voters have reached: none need to, more than half, or all, by acknowledgement mode |
| Replication.CommitExactly | crates/server/src/replication/quorum.rs:5-18 | the same for one sequence above the old commit point, as an equivalence on the followers' match sequences |
| Replication.ReplicationRuntime.SetLocalLastAppliedState | crates/server/src/replication/mod.rs:522-544 | the applied sequence and term are set; a standalone node commits it, a leader commits what enough voters have reached, a follower's commit point stays |
| Replication.ReplicationRuntime.ObserveLeaderCommit | crates/server/src/replication/mod.rs:546-555 | a follower's commit point never falls and rises to exactly what the leader has committed and this node applied; a leader ignores it |
| Replication.ReplicationRuntime.RegisterFollowerAck | crates/server/src/replication/mod.rs:579-607 | an acknowledgement addressed to this node as leader of its current term sets that follower's match and where to resume, and no other's; any other changes nothing; term, vote and disk are untouched |
| Replication.ReplicationRuntime.RecordAppendResult | crates/server/src/replication/mod.rs:1220-1264 | an acceptance raises the follower's match to the greater of the two and resumes right after it; a refusal keeps the match and resumes one entry earlier, or right after the sequence the follower named if that is earlier, and never before the first; nobody else's progress changes |
| Replication.ReplicationRuntime.StartElection | crates/server/src/replication/mod.rs:739-759 | standing raises the term by one up to the last, votes for oneself, forgets the leader and all progress, persists, and only then asks: a request sent out means the term and the vote are on disk |
| Replication.ReplicationRuntime.CloseElection | crates/server/src/replication/mod.rs:761-791 | the election is won exactly by a candidate of that term with more than half of the votes whose record reaches the disk; a lost one changes nothing; term, vote and commit point are kept |
| Replication.ReplicationRuntime.ObserveRemoteTerm | crates/server/src/replication/mod.rs:793-813 | a higher term is adopted, with no vote, no leader, no progress and no leadership; any other changes nothing |
| Replication.ReplicationRuntime.DecidePrevote | crates/server/src/replication/mod.rs:858-910 | granted exactly when the asker's log ends no earlier, no other leader is in office or was just heard from, the asker is not the lower of two nodes with equal logs past the first term, and, against the voter's own candidacy, it is of the same term and strictly ahead by log or by name |
| Replication.PrevoteOneWay | crates/server/src/replication/mod.rs:858-910 | past their first term two nodes never both encourage the other to stand |
| Replication.ReplicationRuntime.HandleVoteRequest | crates/server/src/replication/mod.rs:815-1025 | a vote is granted exactly when the candidate is a voting member, its term is not stale, its log's last term and sequence are not behind the voter's, the vote of that term is free or its own, no other leader was just heard from, and both writes succeed; a granted vote is current and on disk; a prevote changes nothing |
| Replication.ReplicationRuntime.ReceiveHeartbeat | crates/server/src/replication/mod.rs:1027-1098 | accepted exactly from a voting member in a term that is not stale, once on disk; then the sender is followed, with its members and the commit point both have; a refused one changes nothing |
| Replication.ReplicationRuntime.ObserveLeaderStatus | crates/server/src/replication/mod.rs:1100-1156 | a leader status of a current term is followed, without the membership check; a stale one changes nothing |
| Cluster.OnlyWinner | crates/server/src/replication/mod.rs:761-791 | whoever collects a quorum of grants in a term already won, below the last term, is its winner |
| Cluster.CountedVotesElect | crates/server/src/server/mod.rs:777-841 | the votes an election counts, with the candidate's own, are a quorum that granted it the term |
| Cluster.RecomputeCertified | crates/server/src/replication/quorum.rs:5-18 | a leader's recomputed commit point is backed by a quorum |
| Cluster.StepInv | crates/server/src/replication/mod.rs:522-1264 | every handler step of every node keeps the invariant of votes, grants, winners, progress and messages |
| Cluster.ElectionSafety | crates/server/src/replication/mod.rs:739-1098 | in every reachable cluster each term below the last has at most one winner and at most one leader in office, whatever messages were lost, repeated or reordered and whatever durable writes failed |
| ClusterLogs.WinnerIsUpToDate | crates/server/src/replication/mod.rs:835-1013 | in every reachable cluster, the quorum that won a term below the last voted, each of it, with a log that ended no later, by term and then sequence, than the winner's own did when it stood |
| Cluster.CommitSoundness | crates/server/src/replication/mod.rs:522-607 | in every reachable cluster whose nodes wait for others, every commit point above zero on any node is backed: an elected leader and a quorum of voters that each once held that sequence and, unless the leader itself, acknowledged it to that leader in that term |
| ClusterCounters.CountersNeverDecrease | crates/server/src/replication/mod.rs:793-1098 | from any reachable cluster on, whatever is lost, repeated or fails to reach a disk, a node's term and commit point never fall as long as it does not restart |
| ClusterCounters.RestartCounters | crates/server/src/replication/mod.rs:371-372 | a restart keeps the term exactly when it was durable, and forgets the commit point |
| ClusterCounters.TermsExactly | crates/server/src/replication/mod.rs:371-372 | over every run, restarts included, no node's term ever falls exactly when every restart finds its node's current term on disk |
| ClusterCounters.LostWriteLowersTerm | crates/server/src/replication/persistence.rs:22-41 | a run in which a candidacy's write is lost and the node comes back in the term before |
| ClusterCounters.CommitBoundExactly | crates/server/src/replication/mod.rs:1379-1399 | over every run no commit point ever passes what its node has applied exactly when no applied sequence is ever set below the commit point |
| ClusterCounters.CommitPassesApplied | crates/server/src/replication/mod.rs:522-544 | a reachable three-node cluster whose leader's commit point is above its applied sequence |
| ClusterCounters.DiskStaysCurrent | crates/server/src/replication/persistence.rs:22-41 | with every write succeeding, the durable term and vote are the current ones after every handler |
| ClusterCounters.TermsNeverDecrease | crates/server/src/replication/mod.rs:371-372 | over every run with every write succeeding no node's term decreases, restarts included |
| ClusterLimits.TwoWinnersAtSaturation | crates/server/src/replication/mod.rs:739-759 | a reachable three-node cluster in which nodes 0 and 1 have both won term `u64::MAX` |
| Append.PlanAppend | crates/server/src/server/mod.rs:2064-2175 | on any payload the handler refuses exactly when the entry before cannot be looked up, or is beyond the log with nothing following; on consecutive entries its choice, carried out, keeps the log up to the last agreeing entry and adds the rest of what was sent |
| Append.AcceptedExactly | crates/server/src/server/mod.rs:2064-2203 | an append that names the entry before it is accepted exactly when the follower can look it up, and then its log is the leader's up to the last entry sent; one that names none leaves the leader's log exactly when the entry before the first one sent is shared |
| Append.KeepsSharedExactly | crates/server/src/server/mod.rs:2077-2175 | an accepted append drops an entry shared with the leader exactly when the follower shares the one after the last entry sent |
| CatchUp.ResumesExactly | crates/server/src/replication/mod.rs:1256-1260 | backing off from refusal to refusal, the leader stops right after the last place before it from which it can go on, having been refused once for each place in between, at most next - 1 times |
| CatchUp.ResumesAtLastShared | crates/server/src/server/mod.rs:2064-2075 | on matching logs, that place is the last entry both have, when both can look it up |
| CatchUp.CatchesUpExactly | crates/server/src/server/mod.rs:977-1100 | with nobody writing and nothing lost, a follower gets its leader's log exactly when the append it is offered after the backing off does not reach into its snapshot |
| CatchUp.ReplaceAllowed | crates/engine/src/engine/core.rs:401-473 | the engine accepts a replacement by consecutive entries exactly when it spares the snapshot |
| CatchUp.PrunedFollowerStuck | crates/server/src/replication/mod.rs:1211-1218 | a new leader, which starts every follower at one, never reaches a follower that has pruned its log |
| LogMatching.StepExactly | crates/server/src/server/mod.rs:2014-2251 | each win, write, rollback, send, receipt, offer, fetch, snapshot installation and loss of leadership keeps every entry rooted in the reign that wrote it, and every message and acknowledgement a prefix of its leader's log, exactly when it is careful |
| LogMatching.FetchStep | crates/server/src/server/mod.rs:473-617 | a fetched page keeps that invariant exactly when the follower's log is empty or its last entry is the leader's there |
| LogMatching.RollbackStep | crates/server/src/server/mod.rs:1305-1324 | a rollback keeps it exactly when the node does not lead, drops nothing, or no other log and no message holds what it drops |
| LogMatching.InstallStep | crates/server/src/server/mod.rs:2204-2251 | installing a leader's snapshot always keeps it |
| LogMatching.LogsMatch | crates/server/src/server/mod.rs:2014-2204 | over every careful run, entries of one term at one position in two logs have equal histories |
| LogMatching.AcksAgree | crates/server/src/server/mod.rs:2176-2203 | over every careful run, everyone who acknowledged `c` entries to the leader of a term had that leader's own first `c` entries then |
| LogMatching.FetchDiverges | crates/server/src/server/mod.rs:538-585 | a run of three nodes in which a deposed leader fetches what follows its own lone entry: two logs end in the same entry over different ones, and both are acknowledged |
| LogMatching.PrunedAppendDiverges | crates/server/src/server/mod.rs:1006-1014 | the same through the first append of a new leader that has pruned |
| LogMatching.RollbackDiverges | crates/server/src/server/mod.rs:1305-1324 | a run in which a leader rolls back an entry its follower has acknowledged and writes another at the same sequence and term |
| LogMatching.RepeatedAppendWithdraws | crates/server/src/server/mod.rs:2159-2164 | a run in which a redelivered append makes a follower drop an entry it had acknowledged and its leader still has |
| FollowerAppend.AnswerAppend | crates/server/src/server/mod.rs:2014-2204 | on a whole engine, any log and any payload, the handler refuses, fails without change, or takes a follow or rewind step of the recovery model; what it reports is the length of the log it leaves, unless a malformed payload made it keep its log |
| FollowerAppend.AnswerIsLeaderPrefix | crates/server/src/server/mod.rs:2014-2204 | an accepted append cut from a matching leader's log leaves the leader's log up to the sequence reported, exactly when the entry before the first one sent is shared |
| FollowerAppend.SafeFromLeader | crates/server/src/server/mod.rs:2014-2204 | for a follower whose log becomes a prefix of the log of a leader that keeps its invariant, the step is safe exactly when the follower's clock allows the entries and a rebuild is harmless |
| Numbers.ParseRender | crates/engine/src/engine/core.rs:31-43 | every 64-bit integer reads back from its decimal text |
| Numbers.ParseExactly | crates/engine/src/engine/core.rs:31-43 | a counter reads exactly an optional sign and decimal digits whose place values add up to a 64-bit integer |
| Keyspace.ApplyOpsConcat | crates/engine/src/engine/state.rs:179-194 | applying two lists of operations in turn is applying their concatenation, errors included |
| Keyspace.UndoExactly | crates/engine/src/engine/state.rs:109-194 | a failed entry is undone exactly if and only if it has no `Clear` before its failing operation, or nothing net happened before the first one |
| Keyspace.UndoLosesPreImages | crates/engine/src/engine/state.rs:123-129 | a failed entry after which a key written before a `Clear` remains |
| LiveState.UndoLog.RememberKey | crates/engine/src/engine/state.rs:116-121 | the undo record stays true however this key changes from here on, and forgets no key |
| LiveState.UndoLog.RememberClear | crates/engine/src/engine/state.rs:123-128 | whatever becomes of the store, the record stands for the store at the first `Clear` |
| LiveState.EngineState.PurgeExpired | crates/engine/src/engine/store.rs:162-181 | exactly the expired keys go, and the count is theirs |
| LiveState.EngineState.Rollback | crates/engine/src/engine/state.rs:130-147 | store and metadata return to what the undo record stands for |
| LiveState.EngineState.ApplyOperation | crates/engine/src/engine/state.rs:323-390 | the operation's effect or error, with the undo record kept true |
| LiveState.EngineState.ApplyEntry | crates/engine/src/engine/state.rs:179-194 | the fold of the entry's operations with sequence and time, or the first error; a failed entry leaves the store as it was exactly when it fails no later than its first `Clear`, or nothing net happened before that |
| Evaluator.EvaluateSet | crates/engine/src/engine/core.rs:990-1061 | SET in place: when it is permitted, which instants the key is then live at, with what value and version, and the answer; every other key is kept |
| Evaluator.EvaluateMSet | crates/engine/src/engine/core.rs:1078-1090 | MSET in place, with versions counted through repeated keys |
| Evaluator.EvaluateDelete | crates/engine/src/engine/core.rs:1091-1100 | DELETE in place, one operation per key that was there |
| Evaluator.EvaluateRename | crates/engine/src/engine/core.rs:1163-1188 | RENAME in place: delete, write with the destination's next version, expiry kept |
| Evaluator.EvaluateCommand | crates/engine/src/engine/core.rs:936-1296 | every modelled command in place: the working copy, operations and reply of the evaluation, or its error and an unchanged store; and what `Meaning` says they mean |
| Meaning.CommandMeant | crates/engine/src/engine/core.rs:936-1296 | for every store, instant and command, on the values, deadlines and versions of keys alone: which keys are kept, what the others hold and until when, and what is answered; TTL is minus two, minus one or the remaining seconds rounded up |
| Meaning.SetThenGet | crates/engine/src/engine/core.rs:807-812 | after a permitted SET with EX n or PX n at an instant, GET answers the value up to that instant plus 1000 n or n milliseconds, and nothing from then on |
| Meaning.ExpireThenGet | crates/engine/src/engine/core.rs:1138-1154 | the same for EXPIRE |
| Meaning.ExpireThenTtl | crates/engine/src/engine/state.rs:405-407 | TTL right after EXPIRE n answers n |
| Meaning.QuietExactly | crates/engine/src/engine/core.rs:936-1296 | a command logs nothing exactly when it is a read or finds nothing to do |
| Commands.CommandReplays | crates/engine/src/engine/core.rs:936-1296 | applying what a command emitted to the store it saw never fails and gives the store it left |
| Commands.EvaluationRefinesReplay | crates/engine/src/engine/core.rs:839-869 | for every queue of commands, replaying its operations on the purged store gives exactly its working copy, which purging at the same instant leaves alone |
| Commands.RefinementExactly | crates/engine/src/engine/core.rs:839-869 | that holds for all stores and queues at a clock reading if and only if the reading is below `u64::MAX` |
| Commands.ReplayDivergesAtLastInstant | crates/engine/src/engine/core.rs:1138-1154 | at the last instant a queue whose replay differs from its working copy |
| Direct.MSetOperations | crates/engine/src/engine/core.rs:1510-1528 | versions planned from a map of pending versions are those of the evaluator |
| Direct.DeleteCounts | crates/engine/src/engine/core.rs:1534-1554 | the two DELETE counts agree exactly when no present key is repeated |
| Direct.TwoInterpreters | crates/engine/src/engine/core.rs:1383-1674 | the direct method and the evaluator give the same store, reply and error for a write exactly when it is not a DELETE that repeats a present key or a RENAME of a present key with a version other than zero onto itself |
| Direct.PartedExactly | crates/engine/src/engine/core.rs:1534-1674 | where the two part: the direct DELETE removes the same keys and counts every place that names a present one, and the direct RENAME of a key onto itself keeps it with one more version |
| Direct.UnpurgedExactly | crates/engine/src/engine/core.rs:1510-1731 | MSET and CLEAR, which do not sweep first, log what the evaluator would exactly when no expired entry they see changes a version or makes an empty store look full |
| Batch.BatchReplays | crates/engine/src/engine/core.rs:875-934 | replaying a batch's numbered entries on the purged store gives the store the batch left |
| Batch.CommandTouches | crates/engine/src/engine/core.rs:88-122 | a command changes no key but those remembered for it |
| Batch.BatchUndoExactly | crates/engine/src/engine/core.rs:124-155 | a failed batch is undone exactly if and only if no CLEAR was reached or nothing net happened before the first |
| Batch.BatchUndoLosesPreImages | crates/engine/src/engine/core.rs:131-136 | a batch whose undo brings back a key that was never logged |
| LogCache.BuildIdentities | crates/engine/src/engine/core.rs:1328-1342 | the table identifies exactly the given entries; building it fails exactly on two entries with one sequence and different identities |
| LogCache.CappedEntries | crates/engine/src/engine/core.rs:315-331 | on a contiguous cache the scan returns exactly the slice asked for and never its conflict error |
| LogCache.SliceExactly | crates/engine/src/engine/core.rs:315-331 | that slice is the entries above one sequence and up to another, in order, cut to the limit unless it is zero |
| LogCache.CacheExtends | crates/engine/src/engine/core.rs:921-933 | entries numbered after the last applied sequence extend the cache and its identities |
| Suffix.CondensedExactly | crates/engine/src/engine/core.rs:1299-1319 | the pushes give consecutive numbers from the prefix exactly when each entry repeats its predecessor identically or follows it |
| Suffix.PlanReplacement | crates/engine/src/engine/core.rs:401-473 | all checks of a replacement succeed exactly when prefix, overlap and numbering are right, and give the kept prefix and the condensed rest |
| Append.ReplacementExactly | crates/engine/src/engine/core.rs:401-473 | on a whole log those checks hold exactly when the cut is neither inside the snapshot nor past the end, whatever was sent again below it is what the log has there, and the rest starts right after it and goes on one by one or repeats itself |
| Engine.Engine.Open | crates/engine/src/engine/core.rs:200-250 | recovery is the snapshot with every retained entry applied, whatever its sequence; it fails exactly when one does not apply or two share a sequence but not an identity; the engine keeps its cache invariant exactly when the entries are consecutive and join the snapshot, which nothing checks |
| Engine.Engine.AppendAndApply | crates/engine/src/engine/core.rs:683-692 | log first, then apply: one numbered entry, or nothing at all |
| Engine.Engine.ExecuteDirect | crates/engine/src/engine/core.rs:1383-1674 | a direct write is refused, logs and applies its plan, or leaves the store it planned on when the append fails |
| Engine.Engine.ExecuteTransaction | crates/engine/src/engine/core.rs:839-869 | all of a queue in one entry, or none of it |
| Engine.Engine.ExecuteCommandBatch | crates/engine/src/engine/core.rs:875-934 | the queue's store, replies with the sequence each one saw, and one entry per command that changed something; or nothing logged and the undo played back, which gives the swept store exactly when no CLEAR ran after a change |
| Engine.AnswersMean | crates/engine/src/engine/core.rs:890-919 | the sequence in the i-th answer is that of the last entry the first i + 1 commands logged |
| Engine.Engine.ApplyReplicationEntries | crates/engine/src/engine/core.rs:378-399 | accepted exactly when numbered from the next sequence, applicable and appended; otherwise unchanged |
| Engine.Engine.ReplaceReplicationSuffix | crates/engine/src/engine/core.rs:401-508 | accepted exactly when the checks hold and the rebuilt log applies over the snapshot; otherwise unchanged |
| Engine.Engine.TakeSnapshot | crates/engine/src/engine/core.rs:1733-1793 | the purged store becomes the snapshot and the log loses the given number of its oldest entries |
| Engine.Engine.ApplyReplicationSnapshot | crates/engine/src/engine/core.rs:333-376 | the leader's state becomes snapshot and state, with an empty log |
| Engine.Engine.EntriesSince | crates/engine/src/engine/core.rs:315-331 | exactly the slice a peer asks for, for every engine that keeps its log cache |
| Lag.OpsKeepLag | crates/engine/src/engine/state.rs:323-390 | operations that touch no stale key keep a purged copy equal to the fold except for expired entries |
| Lag.CounterExactly | crates/engine/src/engine/core.rs:1560-1596 | a counter command keeps the purged live store and the fold in step if and only if the fold holds no expired value of its key, or one that reads zero at version zero |
| Lag.LateExpiryExactly | crates/engine/src/engine/state.rs:342-349 | an expiry change keeps a purged copy and the fold in step if and only if it does not revive a key the copy has dropped or holds otherwise |
| Lag.StaleCounterDiverges | crates/engine/src/engine/state.rs:354-386 | an INCR on an expired key still in the fold: live store and fold show different integers |
| Overlap.GuardedOverlap | crates/engine/src/engine/core.rs:208-230 | replaying a guarded part of the log over a snapshot that contains it changes no live entry |
| Overlap.OverlapExactly | crates/engine/src/engine/core.rs:208-230 | replaying an overlap and the rest of the log over a store that already shows the overlap succeeds and shows the log if and only if every key's value can be counted on up to its next reset, and no key alive in the end is counted in the overlap and reset neither there nor later |
| Overlap.UnguardedReplayFails | crates/engine/src/engine/state.rs:354-386 | a counter and a write that apply once, and fail when replayed over what they left |
| Recovery.RecoveryExactly | crates/engine/src/engine/core.rs:208-230 | recovery from the snapshot and the retained log comes up and shows the whole log exactly when it is harmless |
| Recovery.GuardedIsHarmless | crates/engine/src/engine/core.rs:208-230 | it is harmless whenever every counter of the overlap comes after a reset of its key there |
| Recovery.SingleStep | crates/engine/src/engine/core.rs:1383-1674 | a direct command keeps the live store lagging the fold, whether or not the evaluator would have done the same |
| Recovery.FollowStep | crates/engine/src/engine/core.rs:378-399 | a safe append from a leader applies and keeps the live store lagging the fold |
| Recovery.RewindStep | crates/engine/src/engine/core.rs:401-508 | a suffix replacement is truncation followed by append: the rebuilt store shows the fold of the new log |
| Recovery.LiveStoreIsTheLog | crates/engine/src/engine/core.rs:200-250 | over every safe run the live store and the fold of the whole log show the same entries from now on, and a crash would come up showing them exactly when it is harmless |
| Recovery.EqualLogsEqualStores | crates/engine/src/engine/core.rs:378-508 | two engines with the same logged operations show the same entries, whatever else each did |
| Recovery.RestartCountsTwice | crates/engine/src/engine/core.rs:1733-1793 | INCR, SNAPSHOT, restart: the counter reads two while the log says one |
| Recovery.RestartRefused | crates/engine/src/engine/core.rs:208-230 | INCR, SET to a text, SNAPSHOT: the files left behind cannot be opened again |
| Recovery.EarlySweepLosesAKey | crates/engine/src/engine/state.rs:197-203 | a follower that swept before a leader's earlier PERSIST arrived has lost the key |
| EngineRuns.BatchIsARun | crates/engine/src/engine/core.rs:875-934 | a batch that completes is a sweep followed by one queue per command |
| EngineRuns.Transact | crates/engine/src/engine/core.rs:839-869 | a transaction on the engine object is a queue step of the recovery model, or only its sweep |
| EngineRuns.RunGroup | crates/engine/src/engine/core.rs:875-934 | a batch on the engine object is a run of the recovery model; a failed one is its sweep exactly when no CLEAR ran after a change |
| EngineRuns.RunSingle | crates/server/src/server/engine_worker.rs:141-147 | a write outside a batch on the engine object, INCR and DECR among them, is a single-command step of the recovery model; a failed append leaves at most its sweep |
| EngineRuns.SingleIsQueueOfOne | crates/engine/src/engine/core.rs:1383-1674 | a direct write that sweeps first leaves the store and gives the answer that a queue of one would, exactly unless the two interpreters part on it |
| EngineRuns.AppendFromLeader | crates/engine/src/engine/core.rs:378-399 | a follower's append on the engine object is a follow step |
| EngineRuns.RewindToLeader | crates/engine/src/engine/core.rs:401-508 | a suffix replacement on the engine object is a rewind step |
| EngineRuns.SnapshotAndPrune | crates/engine/src/engine/core.rs:1733-1793 | a snapshot on the engine object is a snapshot step that keeps the log from where pruning stopped |
| EngineRuns.Reopen | crates/engine/src/engine/core.rs:200-250 | opening what an engine left behind is a restart step, and fails exactly when recovery does |
| ReadIndex.CommittedReadIndex.RebuildFromEngineState | crates/server/src/server/read_index.rs:38-53 | the index becomes the projection of the store |
| ReadIndex.CommittedReadIndex.ApplyEntries | crates/server/src/server/read_index.rs:55-70 | entries at or below the committed sequence are skipped and all others applied, gaps or not; a failing operation stops the delivery with what came before it applied |
| ReadIndex.CommittedReadIndex.ReadCommand | crates/server/src/server/read_index.rs:80-118 | GET, MGET and EXISTS answer from the keys whose deadline is still ahead; TTL answers minus two for any other key, minus one without a deadline, and otherwise the remaining seconds rounded up, at least one; every other command is refused |
| ReadIndex.ProjectOp | crates/server/src/server/read_index.rs:128-188 | applying an operation to the index is projecting its effect on the store |
| ReadIndex.DeliveryFollows | crates/server/src/server/read_index.rs:55-70 | any gap-free slice of the log, however much of it was delivered before, moves the index to its end |
| ReadIndex.CaughtUpReadsAgree | crates/server/src/server/read_index.rs:80-118 | an index that has caught up answers GET, MGET, EXISTS and TTL as the engine does, at every later instant |
| IndexRuns.AdvanceOnce | crates/server/src/server/mod.rs:2751-2764 | one round of advancing the index on the engine object delivers the model's page |
| IndexRuns.HonestExactly | crates/server/src/server/mod.rs:2745-2768 | the index's sequence number goes on standing for the entries it was built from exactly when a page starts right after it and a replaced suffix sends again what it holds |
| IndexRuns.IndexReadsAgree | crates/server/src/server/mod.rs:2636-2646 | over every good run of engine steps, advances and rebuilds, an index that has caught up answers every fast-path read as the engine does, at every later instant |
| IndexRuns.ReplacedEntryStays | crates/server/src/server/mod.rs:2102-2134 | a run in which an entry delivered to the index is replaced by a new leader's, and GET goes on answering the old value |
| IndexRuns.PrunedEntryMissing | crates/server/src/server/mod.rs:2751-2764 | a run in which the log is pruned past the index, the next page leaves a gap, and GET misses a key |
| Cas.VersionCountsWrites | crates/engine/src/engine/core.rs:25-29 | while a key stays present its version rises by the number of writes to it, saturating |
| Cas.VersionOverRun | crates/engine/src/engine/core.rs:990-1061 | the same over any run of commands at any clock readings |
| Cas.RepeatedCasExactly | crates/engine/src/engine/core.rs:990-1061 | after a conditional write, and while the key stays present, another naming the same version succeeds exactly when that version is the last and it does not ask for the key to be missing |
| Cas.AtMostOneCas | crates/engine/src/engine/core.rs:990-1061 | among all conditional writes naming one version below the last, while the key stays present, at most one succeeds |
| Cas.CasAfterRecreation | crates/engine/src/engine/core.rs:25-29 | after a delete and a re-creation the same version succeeds again |
| Cas.CasAtSaturation | crates/engine/src/engine/core.rs:25-29 | at the saturated version two conditional writes succeed |
| Wal.ReplaySegments | crates/engine/src/store/wal.rs:697-766 | replay succeeds exactly on a layout with at most one active segment, truthful names and consecutive sequences, and returns all of it |
| Wal.ReadableExactly | crates/engine/src/store/wal.rs:697-766 | a layout is readable exactly when at most one segment is active, only that one may be empty, each starts and a sealed one ends at the sequence in its name, and every entry follows the one before it |
| Wal.SortNames | crates/engine/src/store/wal.rs:647-687 | the listing sorted by first sequence, sealed before active |
| Wal.SortedMeans | crates/engine/src/store/wal.rs:647-687 | which means: by first sequence, and a sealed segment before an active one of the same |
| Wal.SortedListing | crates/engine/src/store/wal.rs:647-687 | whatever order the directory is listed in, sorting gives the layout's own order |
| Wal.ChainedReadable | crates/engine/src/store/wal.rs:697-766 | a chained layout is readable: no gap, no false name, at most one active segment |
| Wal.Replay | crates/engine/src/store/wal.rs:421-424 | replay of a directory that holds a chained layout never fails and returns everything in it |
| Wal.FindActive | crates/engine/src/store/wal.rs:638-645 | the active segment is the last of a chained layout, or there is none |
| WalWriting.WalWriter.constructor | crates/engine/src/store/wal.rs:410-418 | an empty directory gets one empty active segment, with nothing appended and nothing pruned |
| WalWriting.WalWriter.Open | crates/engine/src/store/wal.rs:287-317 | the active segment is reopened or one is created after the sealed ones; nothing is lost |
| WalWriting.WalWriter.AppendBatch | crates/engine/src/store/wal.rs:326-347 | the log grows by exactly the batch whatever rotations happen, it goes on holding all that was ever appended but what was pruned, only segments that have reached the size limit are sealed, and the open file ends below it |
| WalWriting.WalWriter.RotateAfter | crates/engine/src/store/wal.rs:368-393 | the open file is sealed under its range and an empty one follows it; the log is unchanged |
| WalWriting.WalWriter.SealActive | crates/engine/src/store/wal.rs:493-511 | an empty active segment is removed, any other sealed; the log is unchanged |
| WalWriting.WalWriter.Prune | crates/engine/src/store/wal.rs:514-549 | only the oldest sealed segments go, down to the retained number, and what is left is a suffix of all that was ever appended |
| WalWriting.WalWriter.Cut | crates/engine/src/engine/core.rs:1759-1764 | a snapshot's seal, new segment, reopen and prune leave a suffix of the log and an empty active segment at the next sequence |
| WalWriting.PruneAboveFloor | crates/engine/src/store/wal.rs:520-549 | pruning that spares the floor's segment leaves a readable log exactly when none was spared, the spared one was the last candidate, or nothing follows the gap |
| WalWriting.FloorLeavesAGap | crates/engine/src/store/wal.rs:520-549 | a layout of three sealed segments that this pruning leaves unreadable |
| Framing.LeRoundTrip | crates/engine/src/store/wal.rs:600-606 | a 32-bit number reads back from its four bytes, which are its digits to the base 256, the lowest first |
| Framing.FrameExactly | crates/engine/src/store/wal.rs:782-852 | a file starts with a frame exactly when its bytes are a length between one and four mebibytes, the hash of the payload, and a payload that decodes |
| Framing.FrameLayout | crates/engine/src/store/wal.rs:591-608 | an append writes length, hash and payload in that order |
| Framing.DamageShows | crates/engine/src/store/wal.rs:782-852 | other bytes in the place of a payload are refused, unless they have its hash |
| Framing.ReadEntries | crates/engine/src/store/wal.rs:782-852 | the read loop returns exactly the frames of the file, or the first error |
| Framing.CutExactly | crates/engine/src/store/wal.rs:782-852 | a file cut after any number of bytes gives exactly its whole frames if the cut is on a boundary, and an error otherwise |
| Framing.ReadBackExactly | crates/engine/src/store/wal.rs:591-608 | what was appended reads back if and only if every payload is between one byte and four mebibytes; the writer does not check |
| Storage.ReplayFiles | crates/engine/src/store/wal.rs:697-852 | replay from byte files in any order, the open one cut after any number of bytes, returns everything before the cut if it is on a frame boundary and fails otherwise |
| Storage.TakeSnapshot | crates/engine/src/engine/core.rs:1733-1793 | sealing, starting a segment, pruning and replaying leave the engine with exactly the log in the files, a suffix of what it kept, and take the snapshot step of the recovery model |
| Worker.EngineWorker.Drain | crates/server/src/server/engine_worker.rs:620-648 | the joining requests at the head of the channel join, the first that does not is parked, up to sixty-four |
| Worker.EngineWorker.Turn | crates/server/src/server/engine_worker.rs:122-148 | one turn of the loop; every request that ever arrived has been run or waits, exactly once; they run in arrival order as long as no turn overtakes, and once one has, distinct requests have run out of order for good |
| Worker.EngineWorker.Serve | crates/server/src/server/engine_worker.rs:503-575 | a turn and its answers, whatever runs the group: every request that is run is answered exactly once, in the order they run, with its own result |
| Serving.ServeWrites | crates/server/src/server/engine_worker.rs:488-575 | on the engine: request i of a group is answered with the reply of the i-th command of the queue and the sequence of the last entry the first i + 1 commands logged; if the log refuses them, the first with that error and the others with none; a write that is not batched with its own reply or error |
| Serving.PositionMeans | crates/server/src/server/engine_worker.rs:691-706 | the position in an answer carries the identity of the cached entry with its sequence, and none if there is no such entry |
| Serving.BatchableExactly | crates/server/src/server/engine_worker.rs:650-669 | a batched command is a write that never fails, and every write that never fails and can have something to log is batched |
| Serving.BatchNeverFails | crates/server/src/server/engine_worker.rs:620-669 | so a group the worker forms can fail only in the log |
| Worker.TurnConserves | crates/server/src/server/engine_worker.rs:503-516 | a turn loses, repeats and invents no request, under either sync policy |
| Worker.OrderExactly | crates/server/src/server/engine_worker.rs:503-516 | a turn keeps arrival order exactly unless a queue's head joins its group past a request that waits in the deque or was just parked |
| Worker.OvertakingShows | crates/server/src/server/engine_worker.rs:503-516 | and otherwise the group it runs is itself out of arrival order |
| Worker.BufferedKeepsOrder | crates/server/src/server/engine_worker.rs:503-516 | without the second drain at most one request is parked and order is always kept |
| Worker.GroupUniform | crates/server/src/server/engine_worker.rs:620-669 | a group is one request, or at most sixty-four batchable writes of one term, and starts with the oldest request |
| Worker.ParkedAdvances | crates/server/src/server/engine_worker.rs:125-128 | a parked request moves one place forward every turn |
| Worker.SecondDrainOvertakes | crates/server/src/server/engine_worker.rs:513-516 | a later SET runs before an earlier INCR |
| Worker.Answer | crates/server/src/server/engine_worker.rs:518-575 | every request of a group gets one answer, made of the result at its own place in the group: rendered and with its log position, or the error of whichever fails first; when the batch fails only the first learns why |
| Glob.WildcardMatches | crates/engine/src/engine/core.rs:1958-1981 | the table answers whether the text can be cut into parts, one for each pattern character, for every pattern and text |
| Glob.CellMatches | crates/engine/src/engine/core.rs:1971-1978 | a true cell has a cutting |
| Glob.MatchesCell | crates/engine/src/engine/core.rs:1971-1978 | a cutting makes the cell true |

## Left out

- Leader completeness: the commit rule has no current-term restriction and an append can withdraw an acknowledgement (`LogMatching.RepeatedAppendWithdraws`), so it does not hold.
- Membership changes and `promote_follower`: promotion takes leadership without votes; the cluster model has a fixed membership.
- The write coordinator around a rollback, and a write that is logged after its leader has stepped down: in `LogMatching` a node writes only while it leads.
- The election that precedes a win in `LogMatching`: that a term is won once is `Cluster.ElectionSafety`, proved on a model without log contents.
- A status and the page fetched after it, read from a leader at two moments: `LogMatching` takes both from one reading of its state.
- CatchUp.CatchesUpExactly: takes a leader that still has its whole log and entries that apply on the follower; where the leader has pruned, `CatchUp.ResumesExactly` says when it sends its snapshot instead.
- Snapshot installation in the run model of one engine: `LogMatching` has it across nodes, `Engine.Engine.ApplyReplicationSnapshot` on one engine and `IndexRuns` as a rebuild of the index.
- Crash points inside one operation other than an append to the open file: a file replacement and a segment rename happen whole or not at all; the writes inside `replace_replication_suffix` are taken to succeed.
- Sequence exhaustion: engine operations require room below `u64::MAX` for the entries they log, and leaders send nothing numbered `u64::MAX`.
- A clock that runs backwards: the run models take non-decreasing readings.
- Encryption, CRC32, MessagePack, JSON, zstd: function parameters, with decoding assumed to invert encoding where that is needed.
- Manifest checks, keyring rotation, migration, point-in-time restore, logical backup and restore.
- SCAN, LIST, PING, INFO and administrative commands; SCAN's matching is `Glob`.
- Transport, authentication, rate limits, metrics, the command-line client: no state that the results above depend on.
- Election timers, leases and follower phases: nondeterministic choices, since safety must not depend on them; advertised addresses and health fields are not modelled.
- Node identities are naturals, in the order of the source's strings.
- Engine.Engine.ExecuteDirect: covers the write commands; reads outside a queue are covered through the evaluator.
- FollowerAppend.AnswerAppend: takes payloads whose sequences stay within `u64`, as the engine's suffix replacement does.
- Engine.Engine.TakeSnapshot: how many entries go is an argument; `Storage.TakeSnapshot` ties it to the files.
- Batch.BatchUndoExactly: speaks of the store and not of the metadata; `Engine.Engine.ExecuteCommandBatch` states the metadata.
- IndexRuns.HonestExactly: speaks of deliveries the index accepts; in a current index every one is (`ReadIndex.DeliveryFollows`).
