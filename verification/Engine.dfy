/**
  The storage engine: live state, durable snapshot, durable log and the in-memory copy of that log.

  Clock readings and the outcome of a log append are inputs; an append either happens as a whole or not at all.
 */
module Engine {
  import opened Base
  import opened Numbers
  import opened Keyspace
  import opened LiveState
  import opened Commands
  import opened Evaluator
  import opened Direct
  import opened Batch
  import opened LogCache
  import opened Suffix

  datatype Snapshot = Snapshot(store: Store, metadata: Metadata)

  datatype BatchResult = BatchResult(reply: Reply, lastApplied: u64)

  const NEW_METADATA: Metadata := Metadata(0, None, 0)

  /** Takes the pre-images a command needs: the keys it may touch, or the whole store for a `CLEAR`. */
  method RememberCommand(undo: UndoLog, store: Store, cmd: Command, ghost start: Store, ghost cleared: Option<Store>)
    requires undo.Tracks(start, store, cleared)
    modifies undo
    ensures undo.Tracks(start, store, if cmd.ClearAll? && cleared.None? then Some(store) else cleared)
    ensures !cmd.ClearAll? && cleared.None? ==> forall k :: k in Remembered(cmd) ==> k in undo.keys
  {
    if cmd.ClearAll? {
      undo.RememberClear(store, start, cleared);
      assert undo.Tracks(start, store, FirstCleared(cleared, store));
    } else {
      var keys := Remembered(cmd);
      var i := 0;
      while i < |keys|
        invariant i <= |keys| && undo.Tracks(start, store, cleared)
        invariant cleared.None? ==> forall j :: 0 <= j < i ==> keys[j] in undo.keys
      {
        undo.RememberKey(store, keys[i], start, cleared);
        assert SameBesides(store, store, keys[i]);
        i := i + 1;
      }
    }
  }

  /** Remembers, runs a command in place, and keeps the undo record true. */
  method RunRemembered(state: EngineState, undo: UndoLog, now: u64, cmd: Command, ghost start: Store,
                       ghost cleared: Option<Store>)
    returns (r: Result<Reply, EngineError>, ops: seq<Operation>)
    requires Purged(state.store, now) && now < U64_MAX && undo.Tracks(start, state.store, cleared)
    modifies state, undo
    ensures r.Ok? ==> EvalPurged(old(state.store), now, cmd) == Ok(Effect(state.store, ops, r.value))
    ensures r.Err? ==> EvalPurged(old(state.store), now, cmd) == Err(r.error) && state.store == old(state.store)
    ensures Purged(state.store, now) && state.metadata == old(state.metadata)
    ensures undo.Tracks(start, state.store, if cmd.ClearAll? && cleared.None? then Some(old(state.store)) else cleared)
  {
    ghost var before := state.store;
    RememberCommand(undo, state.store, cmd, start, cleared);
    PurgeIdempotent(before, now);
    r, ops := EvaluateCommand(state, now, cmd);
    if r.Ok? {
      CommandPurged(before, now, cmd);
      if !cmd.ClearAll? && cleared.None? {
        forall k | k !in undo.keys ensures Lookup(state.store, k) == Lookup(start, k) {
          CommandTouches(before, now, cmd, k);
        }
      }
    }
  }

  class Engine {
    const checksum: Checksum
    var state: EngineState
    var snapshot: Option<Snapshot>
    var wal: seq<Entry>
    var walEntries: seq<Entry>
    var identities: map<u64, Identity>
    var term: u64

    ghost function Baseline(): u64
      reads this
    {
      if snapshot.Some? then snapshot.value.metadata.lastApplied else 0
    }

    function SnapshotStore(): Store
      reads this
    {
      if snapshot.Some? then snapshot.value.store else map[]
    }

    /**
      The log cache: the in-memory entries are the durable ones, contiguous, end at the last applied sequence,
      leave no gap after the snapshot, and the identity table maps exactly their sequences to their identities.
     */
    ghost predicate Valid()
      reads this, state
    {
      wal == walEntries && CacheKept(checksum, walEntries, identities, Baseline(), state.metadata.lastApplied)
    }

    constructor Fresh(checksum: Checksum, state: EngineState, snapshot: Option<Snapshot>, wal: seq<Entry>,
                      identities: map<u64, Identity>)
      ensures this.checksum == checksum && this.state == state && this.snapshot == snapshot
      ensures this.wal == wal && walEntries == wal && this.identities == identities && term == 0
    {
      this.checksum, this.state, this.snapshot := checksum, state, snapshot;
      this.wal, walEntries, this.identities, term := wal, wal, identities, 0;
    }

    /** Recovery: the snapshot, then every retained entry over it, whatever its sequence. */
    static method Open(checksum: Checksum, snapshot: Option<Snapshot>, wal: seq<Entry>) returns (engine: Engine?)
      ensures engine != null <==>
              && ApplyEntries(if snapshot.Some? then snapshot.value.store else map[], wal).Ok?
              && !Conflicting(checksum, wal)
      ensures engine != null ==>
              && engine.walEntries == wal && engine.snapshot == snapshot && engine.checksum == checksum
              && ApplyEntries(if snapshot.Some? then snapshot.value.store else map[], wal) == Ok(engine.state.store)
      ensures engine != null ==> (engine.Valid() <==> Contiguous(wal) && Joins(engine.Baseline(), wal))
    {
      var state := new EngineState(if snapshot.Some? then snapshot.value.store else map[],
                                   if snapshot.Some? then snapshot.value.metadata else NEW_METADATA);
      var identities := BuildIdentities(checksum, wal);
      var replayed := ReplayInto(state, wal);
      if replayed.Err? || identities.Err? {
        return null;
      }
      engine := new Engine.Fresh(checksum, state, snapshot, wal, identities.value);
    }

    /** Appends one entry durably, then applies it. */
    method AppendAndApply(ops: seq<Operation>, stamp: u64, walOk: bool) returns (ok: bool)
      requires Valid() && state.metadata.lastApplied < U64_MAX
      requires ApplyOps(state.store, ops).Ok?
      modifies this, state
      ensures Valid() && ok == walOk && state == old(state) && snapshot == old(snapshot) && term == old(term)
      ensures !ok ==> state.store == old(state.store) && state.metadata == old(state.metadata)
                      && walEntries == old(walEntries)
      ensures ok ==> ApplyOps(old(state.store), ops) == Ok(state.store)
                     && state.metadata == old(state.metadata).(lastApplied := old(state.metadata.lastApplied) + 1,
                                                               updatedAt := stamp)
                     && walEntries == old(walEntries) + [Entry(old(state.metadata.lastApplied) + 1, term, stamp, ops)]
    {
      var entry := Entry(state.metadata.lastApplied + 1, term, stamp, ops);
      if !walOk {
        return false;
      }
      wal := wal + [entry];
      var applied := state.ApplyEntry(entry);
      CacheExtendsOne(checksum, walEntries, identities, Baseline(), old(state.metadata.lastApplied), entry);
      identities := identities[entry.sequence := IdentityOf(checksum, entry)];
      walEntries := walEntries + [entry];
      ok := true;
    }

    /** One command outside a batch: plan on the purged store, append, apply. */
    method ExecuteDirect(now: u64, stamp: u64, cmd: Command, walOk: bool) returns (r: Result<Reply, EngineError>)
      requires Valid() && IsWrite(cmd) && state.metadata.lastApplied < U64_MAX
      modifies this, state
      ensures Valid() && state == old(state)
      ensures old(walEntries) <= walEntries
      ensures DirectEnds(old(state.store), now, cmd, term, old(state.metadata.lastApplied), stamp, walOk, r,
                         state.store, walEntries[|old(walEntries)|..])
      ensures snapshot == old(snapshot) && term == old(term)
    {
      hide PlanCommand, CacheKept, ApplyOps, Purge, EvalMSet;
      if !cmd.MSet? && !cmd.ClearAll? {
        var _ := state.PurgeExpired(now);
      }
      var plan := PlanCommand(state.store, now, cmd);
      if plan.Err? {
        return Err(plan.error);
      }
      if plan.value.entry.None? {
        return Ok(plan.value.reply);
      }
      var ops := plan.value.entry.value;
      if cmd.MSet? {
        ops := MSetOperations(state.store, cmd.entries);
        MSetPlan(state.store, now, cmd.entries);
      }
      PlanNeverFails(state.store, now, cmd);
      var ok := AppendAndApply(ops, stamp, walOk);
      r := if ok then Ok(plan.value.reply) else Err(Io);
    }

    /** A queue of commands on a copy of the state, logged as one entry. */
    method ExecuteTransaction(now: u64, stamp: u64, cmds: seq<Command>, walOk: bool)
      returns (r: Result<seq<Reply>, EngineError>)
      requires Valid() && now < U64_MAX && state.metadata.lastApplied < U64_MAX
      modifies this, state
      ensures Valid() && (state == old(state) || fresh(state)) && snapshot == old(snapshot) && term == old(term)
      ensures old(walEntries) <= walEntries
      ensures TransactionEnds(old(state.store), now, cmds, old(term), old(state.metadata.lastApplied), stamp, walOk, r,
                              state.store, walEntries[|old(walEntries)|..])
    {
      hide EvalAll, ApplyOps, CacheKept, Purge;
      ghost var s0 := state.store;
      var _ := state.PurgeExpired(now);
      PurgeIdempotent(s0, now);
      var working := new EngineState(state.store, state.metadata);
      var evaluated := EvaluateQueue(working, now, cmds, s0);
      if evaluated.Err? {
        return Err(evaluated.error);
      }
      var (replies, ops) := evaluated.value;
      if ops == [] {
        state := working;
        return Ok(replies);
      }
      EvaluationRefinesReplay(s0, now, cmds);
      var ok := AppendAndApply(ops, stamp, walOk);
      r := if ok then Ok(replies) else Err(Io);
    }

    /** Appends numbered entries to the durable log and to the cache. */
    method Commit(entries: seq<Entry>, ghost last: u64)
      requires wal == walEntries && CacheKept(checksum, walEntries, identities, Baseline(), last)
      requires entries != [] && Numbered(entries, last)
      modifies this
      ensures wal == walEntries && walEntries == old(walEntries) + entries
      ensures CacheKept(checksum, walEntries, identities, Baseline(), last + |entries|)
      ensures state == old(state) && snapshot == old(snapshot) && term == old(term)
    {
      hide CacheKept, IdentifiesExactly;
      var ids := IdentitiesOf(checksum, entries);
      wal := wal + entries;
      CacheExtends(checksum, walEntries, identities, Baseline(), last, entries, ids);
      identities := identities + ids;
      walEntries := walEntries + entries;
    }

    /** A group of independent commands evaluated in place, logged as one append, undone as one. */
    method ExecuteCommandBatch(now: u64, cmds: seq<Command>, walOk: bool)
      returns (r: Result<seq<BatchResult>, EngineError>)
      requires Valid() && now < U64_MAX && state.metadata.lastApplied + |cmds| <= U64_MAX
      modifies this, state
      ensures Valid() && state == old(state) && snapshot == old(snapshot) && term == old(term)
      ensures old(walEntries) <= walEntries
      ensures BatchEnds(old(state.store), now, cmds, old(term), old(state.metadata.lastApplied), walOk, r, state.store,
                        walEntries[|old(walEntries)|..])
      ensures r.Err? ==> state.metadata == PurgedMetadata(old(state.store), old(state.metadata), now)
      ensures r.Err? ==>
                (state.store == Purge(old(state.store), now) <==> NothingCleared(old(state.store), now, cmds))
    {
      hide BatchEnds, CacheKept, Reached, Purge, ClearedBy, Broke, Numbered, NothingCleared, Undone;
      ghost var s0, base := state.store, state.metadata.lastApplied;
      var _ := state.PurgeExpired(now);
      var saved := state.metadata;
      var undo := new UndoLog();
      var results, entries, ran := RunBatch(state, undo, now, cmds, term, s0);
      if results.Err? {
        BatchBreaks(s0, now, cmds, ran, results.error, term, base, walOk);
        assert walEntries[|walEntries|..] == [];
        ghost var undone := Undone(Purge(s0, now), ClearedBy(s0, now, cmds, ran));
        FailedBatchExactly(s0, now, cmds, term, base, walOk, results.error, undone);
        state.Rollback(undo, saved, Purge(s0, now), ClearedBy(s0, now, cmds, ran));
        UndoneIs(Purge(s0, now), ClearedBy(s0, now, cmds, ran));
        return Err(results.error);
      }
      BatchCompletes(s0, now, cmds, state.store, entries, results.value, term, base, walOk);
      assert walEntries[|walEntries|..] == [] && (walEntries + entries)[|walEntries|..] == entries;
      if entries != [] {
        if !walOk {
          ghost var undone := Undone(Purge(s0, now), ClearedBy(s0, now, cmds, ran));
          FailedBatchExactly(s0, now, cmds, term, base, walOk, Io, undone);
          state.Rollback(undo, saved, Purge(s0, now), ClearedBy(s0, now, cmds, ran));
          UndoneIs(Purge(s0, now), ClearedBy(s0, now, cmds, ran));
          return Err(Io);
        }
        Commit(entries, base);
      }
      r := results;
    }

    /** A follower's append: each entry must be the next one; a gap, a failing operation or append changes nothing. */
    method ApplyReplicationEntries(entries: seq<Entry>, walOk: bool) returns (r: Result<u64, EngineError>)
      requires Valid() && state.metadata.lastApplied + |entries| <= U64_MAX
      modifies this
      ensures Valid() && snapshot == old(snapshot) && term == old(term)
      ensures r.Ok? <==>
              && Numbered(entries, old(state.metadata.lastApplied)) && (entries == [] || walOk)
              && ApplyEntries(old(state.store), entries).Ok?
      ensures r.Err? ==> state == old(state) && walEntries == old(walEntries)
      ensures r.Ok? ==>
                && fresh(state) && ApplyEntries(old(state.store), entries) == Ok(state.store)
                && walEntries == old(walEntries) + entries
                && r.value == state.metadata.lastApplied == old(state.metadata.lastApplied) + |entries|
    {
      ghost var last := state.metadata.lastApplied;
      var staged := new EngineState(state.store, state.metadata);
      r := StageEntries(staged, entries);
      if r.Err? {
        return;
      }
      if entries != [] {
        if !walOk {
          return Err(Io);
        }
        Commit(entries, last);
      } else {
        assert walEntries + entries == walEntries;
      }
      state := staged;
    }

    /**
      Suffix replacement: rebuilt from the snapshot over the kept prefix and the condensed entries.  It is accepted
      exactly when `Accepts` holds and the rebuilt log applies; otherwise nothing changes.
     */
    method ReplaceReplicationSuffix(prefix: u64, entries: seq<Entry>) returns (r: Result<u64, EngineError>)
      requires Valid() && prefix + |entries| <= U64_MAX
      modifies this
      ensures Valid() && snapshot == old(snapshot) && term == old(term)
      ensures r.Ok? <==>
              && Accepts(checksum, old(walEntries), old(Baseline()), prefix, entries)
              && Condense(checksum, Above(entries, prefix)).Ok?
              && ApplyEntries(SnapshotStore(), Replaced(checksum, old(walEntries), prefix, entries)).Ok?
      ensures r.Err? ==> state == old(state) && walEntries == old(walEntries)
      ensures r.Ok? ==>
                && fresh(state) && walEntries == Replaced(checksum, old(walEntries), prefix, entries)
                && ApplyEntries(SnapshotStore(), walEntries) == Ok(state.store)
                && r.value == state.metadata.lastApplied
    {
      hide Accepts, CacheKept, Condense, Replaced, ApplyEntries;
      var log := PlanCachedReplacement(prefix, entries);
      if log.Err? {
        return Err(log.error);
      }
      var rebuilt := new EngineState(SnapshotStore(), if snapshot.Some? then snapshot.value.metadata else NEW_METADATA);
      r := ReplayInto(rebuilt, log.value);
      if r.Err? {
        return;
      }
      var ids := IdentitiesOf(checksum, log.value);
      CacheReplaced(checksum, walEntries, identities, Baseline(), state.metadata.lastApplied, prefix, entries, ids);
      wal, walEntries, identities, state := log.value, log.value, ids, rebuilt;
    }

    method PlanCachedReplacement(prefix: u64, entries: seq<Entry>) returns (log: Result<seq<Entry>, EngineError>)
      requires Valid() && prefix + |entries| <= U64_MAX
      ensures log.Ok? <==> Accepts(checksum, walEntries, Baseline(), prefix, entries)
      ensures log.Ok? ==> Condense(checksum, Above(entries, prefix)).Ok?
      ensures log.Ok? ==> log.value == Replaced(checksum, walEntries, prefix, entries) && Contiguous(log.value)
    {
      log := PlanReplacement(checksum, walEntries, if snapshot.Some? then snapshot.value.metadata.lastApplied else 0,
                             prefix, entries);
      if log.Ok? {
        CondensedExactly(checksum, Above(entries, prefix), prefix);
        ReplacedShape(Kept(walEntries, prefix), Condense(checksum, Above(entries, prefix)).value, Baseline(), prefix);
      }
    }

    /** Sweeps, writes the snapshot and drops the sealed segments holding the first `drop` retained entries. */
    method TakeSnapshot(now: u64, drop: nat)
      requires Valid() && drop <= |walEntries|
      modifies this, state
      ensures Valid() && state == old(state) && term == old(term) && walEntries == old(walEntries)[drop..]
      ensures snapshot == Some(Snapshot(Purge(old(state.store), now), state.metadata))
      ensures state.store == snapshot.value.store
      ensures state.metadata == old(state.metadata).(lastSnapshotAt := Some(now), updatedAt := now)
    {
      hide CacheKept, IdentifiesExactly, Purge;
      ghost var last := state.metadata.lastApplied;
      var _ := state.PurgeExpired(now);
      state.metadata := state.metadata.(lastSnapshotAt := Some(now), updatedAt := now);
      CacheShape(checksum, walEntries, identities, Baseline(), last);
      var kept := walEntries[drop..];
      var ids := IdentitiesOf(checksum, kept);
      CacheDrops(checksum, walEntries, identities, Baseline(), last, drop, ids);
      snapshot, wal, walEntries, identities := Some(Snapshot(state.store, state.metadata)), kept, kept, ids;
    }

    /** A follower's reset: the leader's state becomes the snapshot and the log is empty. */
    method ApplyReplicationSnapshot(store: Store, metadata: Metadata, at: u64)
      modifies this
      ensures Valid() && fresh(state) && term == old(term) && walEntries == []
      ensures state.store == store && state.metadata == metadata.(lastSnapshotAt := Some(at), updatedAt := at)
      ensures snapshot == Some(Snapshot(store, state.metadata))
    {
      state := new EngineState(store, metadata.(lastSnapshotAt := Some(at), updatedAt := at));
      snapshot := Some(Snapshot(state.store, state.metadata));
      wal, walEntries, identities := [], [], map[];
    }

    /** `wal_entries_since_capped`: exactly the slice a peer asks for. */
    method EntriesSince(after: u64, limit: nat, max: Option<u64>) returns (r: Result<seq<Entry>, EngineError>)
      requires Valid()
      ensures r == Ok(Slice(walEntries, after, limit, max))
    {
      r := CappedEntries(checksum, walEntries, after, limit, max);
    }
  }

  // ---------------------------------------------------------------- helpers

  /** The retained entries leave no gap after the snapshot and reach at least as far. */
  predicate Joins(base: u64, wal: seq<Entry>) {
    wal != [] ==> wal[0].sequence <= base + 1 && base <= wal[|wal| - 1].sequence
  }

  /** What a direct command comes to: refused, undone by a failed append, or answered with its plan in force. */
  ghost predicate DirectEnds(s: Store, now: u64, cmd: Command, term: u64, base: u64, stamp: u64, walOk: bool,
                             r: Result<Reply, EngineError>, store: Store, added: seq<Entry>)
    requires base < U64_MAX
  {
    var seen := SeenDirectly(s, now, cmd);
    var plan := PlanCommand(seen, now, cmd);
    if plan.Err? then r == Err(plan.error) && store == seen && added == []
    else if plan.value.entry.Some? && !walOk then r == Err(Io) && store == seen && added == []
    else
      && r == Ok(plan.value.reply) && PlannedStore(seen, plan.value) == Ok(store)
      && added == Logged(base, term, stamp, plan.value)
  }

  /** What a transaction comes to: all of it in one entry, or none of it. */
  ghost predicate TransactionEnds(s: Store, now: u64, cmds: seq<Command>, term: u64, base: u64, stamp: u64, walOk: bool,
                                  r: Result<seq<Reply>, EngineError>, store: Store, added: seq<Entry>)
    requires base < U64_MAX
  {
    var e := EvalAll(s, now, cmds);
    if e.Err? then r == Err(e.error) && store == Purge(s, now) && added == []
    else if e.value.ops == [] then r == Ok(e.value.replies) && store == e.value.store && added == []
    else if !walOk then r == Err(Io) && store == Purge(s, now) && added == []
    else
      && r == Ok(e.value.replies) && store == e.value.store
      && added == [Entry(base + 1, term, stamp, e.value.ops)]
  }

  /** The entry a direct command logs, if it changes anything. */
  function Logged(last: u64, term: u64, stamp: u64, plan: Plan): seq<Entry>
    requires last < U64_MAX
  {
    if plan.entry.None? then [] else [Entry(last + 1, term, stamp, plan.entry.value)]
  }

  lemma {:induction false} ContiguousIdentities(checksum: Checksum, entries: seq<Entry>)
    requires Contiguous(entries)
    ensures forall i, j :: 0 <= i < j < |entries| ==> entries[i].sequence != entries[j].sequence
  {
  }

  lemma {:induction false} MSetPlan(s: Store, now: u64, entries: seq<(Key, Bytes)>)
    ensures var plan := PlanCommand(s, now, MSet(entries));
            plan.Ok? && plan.value.entry.Some? ==> plan.value.entry.value == EvalMSet(s, entries).1
  {
  }

  method IdentitiesOf(checksum: Checksum, entries: seq<Entry>) returns (ids: map<u64, Identity>)
    requires Contiguous(entries)
    ensures IdentifiesExactly(checksum, entries, ids)
  {
    var built := BuildIdentities(checksum, entries);
    ContiguousIdentities(checksum, entries);
    ids := built.value;
  }

  /** Checks numbering and applies, entry by entry, on a staged copy. */
  method StageEntries(staged: EngineState, entries: seq<Entry>) returns (r: Result<u64, EngineError>)
    requires staged.metadata.lastApplied + |entries| <= U64_MAX
    modifies staged
    ensures r.Ok? <==>
            Numbered(entries, old(staged.metadata.lastApplied)) && ApplyEntries(old(staged.store), entries).Ok?
    ensures r.Ok? ==> ApplyEntries(old(staged.store), entries) == Ok(staged.store)
    ensures r.Ok? ==> r.value == staged.metadata.lastApplied == old(staged.metadata.lastApplied) + |entries|
    ensures r.Err? && Numbered(entries, old(staged.metadata.lastApplied)) ==>
              ApplyEntries(old(staged.store), entries) == Err(r.error)
  {
    var i := 0;
    while i < |entries|
      invariant i <= |entries|
      invariant ApplyEntries(staged.store, entries[i..]) == ApplyEntries(old(staged.store), entries)
      invariant staged.metadata.lastApplied == old(staged.metadata.lastApplied) + i
      invariant forall j :: 0 <= j < i ==> entries[j].sequence == old(staged.metadata.lastApplied) + 1 + j
    {
      assert entries[i..][0] == entries[i] && entries[i..][1..] == entries[i + 1..];
      if entries[i].sequence != staged.metadata.lastApplied + 1 {
        return Err(InvalidStorageOperation);
      }
      var applied := staged.ApplyEntry(entries[i]);
      if applied.Err? {
        return Err(applied.error);
      }
      i := i + 1;
    }
    r := Ok(staged.metadata.lastApplied);
  }

  /** Replays entries one by one; stops at the first that fails. */
  method ReplayInto(state: EngineState, entries: seq<Entry>) returns (r: Result<u64, EngineError>)
    modifies state
    ensures r.Err? ==> ApplyEntries(old(state.store), entries) == Err(r.error)
    ensures r.Ok? ==> ApplyEntries(old(state.store), entries) == Ok(state.store)
    ensures r.Ok? ==> r.value == state.metadata.lastApplied
    ensures r.Ok? ==>
              r.value == if entries == [] then old(state.metadata.lastApplied) else entries[|entries| - 1].sequence
  {
    var i := 0;
    while i < |entries|
      invariant i <= |entries|
      invariant ApplyEntries(state.store, entries[i..]) == ApplyEntries(old(state.store), entries)
      invariant state.metadata.lastApplied ==
                if i == 0 then old(state.metadata.lastApplied) else entries[i - 1].sequence
    {
      assert entries[i..][0] == entries[i] && entries[i..][1..] == entries[i + 1..];
      var applied := state.ApplyEntry(entries[i]);
      if applied.Err? {
        return Err(applied.error);
      }
      i := i + 1;
    }
    r := Ok(state.metadata.lastApplied);
  }

  /** The queue loop of a transaction, on its working copy. */
  method EvaluateQueue(working: EngineState, now: u64, cmds: seq<Command>, ghost s0: Store)
    returns (r: Result<(seq<Reply>, seq<Operation>), EngineError>)
    requires working.store == Purge(s0, now)
    modifies working
    ensures working.metadata.lastApplied == old(working.metadata.lastApplied)
    ensures r.Ok? ==> EvalAll(s0, now, cmds) == Ok(Effects(working.store, r.value.1, r.value.0))
    ensures r.Err? ==> EvalAll(s0, now, cmds) == Err(r.error)
  {
    hide EvalAll, EvalPurged;
    var replies: seq<Reply> := [];
    var ops: seq<Operation> := [];
    var i := 0;
    EvalNone(s0, now, cmds);
    while i < |cmds|
      invariant i <= |cmds| && EvalAll(s0, now, cmds[..i]) == Ok(Effects(working.store, ops, replies))
      invariant working.metadata.lastApplied == old(working.metadata.lastApplied)
    {
      EvalNext(s0, now, cmds, i);
      var evaluated, emitted := EvaluateCommand(working, now, cmds[i]);
      if evaluated.Err? {
        EvalPrefix(s0, now, cmds, i + 1);
        return Err(evaluated.error);
      }
      replies := replies + [evaluated.value];
      ops := ops + emitted;
      i := i + 1;
    }
    assert cmds[..i] == cmds;
    r := Ok((replies, ops));
  }

  lemma {:induction false} EvalNone(s: Store, now: u64, cmds: seq<Command>)
    ensures EvalAll(s, now, cmds[..0]) == Ok(Effects(Purge(s, now), [], []))
  {
  }

  /** One more command of a queue. */
  lemma {:induction false} EvalNext(s: Store, now: u64, cmds: seq<Command>, i: nat)
    requires i < |cmds| && EvalAll(s, now, cmds[..i]).Ok?
    ensures var e, last := EvalAll(s, now, cmds[..i]).value, Eval(EvalAll(s, now, cmds[..i]).value.store, now, cmds[i]);
            EvalAll(s, now, cmds[..i + 1]) ==
            if last.Err? then Err(last.error)
            else Ok(Effects(last.value.store, e.ops + last.value.ops, e.replies + [last.value.reply]))
  {
    hide EvalPurged;
    assert cmds[..i + 1][..i] == cmds[..i];
  }

  ghost function QueueStore(s: Store, now: u64, cmds: seq<Command>): Option<Store> {
    if EvalAll(s, now, cmds).Ok? then Some(EvalAll(s, now, cmds).value.store) else None
  }

  /** The batch loop has evaluated `cmds`: store, entries and results so far. */
  ghost predicate Reached(s: Store, now: u64, cmds: seq<Command>, store: Store, entries: seq<Entry>,
                          results: seq<BatchResult>, term: u64, base: u64)
  {
    && base + |cmds| <= U64_MAX
    && EvalAll(s, now, cmds).Ok? && EvalAll(s, now, cmds).value.store == store
    && entries == BatchEntries(s, now, term, base, cmds)
    && results == Answers(s, now, term, base, cmds)
  }

  /** Each command's reply with the sequence that is visible once it has run. */
  function Answers(s: Store, now: u64, term: u64, base: u64, cmds: seq<Command>): (r: seq<BatchResult>)
    requires EvalAll(s, now, cmds).Ok? && base + |cmds| <= U64_MAX
    ensures |r| == |cmds|
    decreases |cmds|
  {
    if cmds == [] then []
    else
      Answers(s, now, term, base, cmds[..|cmds| - 1])
      + [BatchResult(EvalAll(s, now, cmds).value.replies[|cmds| - 1],
                     LastVisible(base, BatchEntries(s, now, term, base, cmds)))]
  }

  function LastVisible(base: u64, entries: seq<Entry>): u64 {
    if entries == [] then base else entries[|entries| - 1].sequence
  }

  /** What the i-th answer says: the queue's i-th reply, and the last entry the first i + 1 commands logged. */
  lemma {:induction false} AnswersMean(s: Store, now: u64, term: u64, base: u64, cmds: seq<Command>, i: nat)
    requires EvalAll(s, now, cmds).Ok? && base + |cmds| <= U64_MAX && i < |cmds|
    ensures EvalAll(s, now, cmds[..i + 1]).Ok?
    ensures Answers(s, now, term, base, cmds)[i] ==
            BatchResult(EvalAll(s, now, cmds).value.replies[i],
                        base + |BatchEntries(s, now, term, base, cmds[..i + 1])|)
    decreases |cmds|
  {
    hide Eval, BatchEntries;
    var init := cmds[..|cmds| - 1];
    if i == |cmds| - 1 {
      assert cmds[..i + 1] == cmds;
      NumberedFrom(s, now, term, base, cmds);
    } else {
      assert init[..i + 1] == cmds[..i + 1];
      AnswersMean(s, now, term, base, init, i);
    }
  }

  lemma {:induction false} NumberedFrom(s: Store, now: u64, term: u64, base: u64, cmds: seq<Command>)
    requires EvalAll(s, now, cmds).Ok? && base + |cmds| <= U64_MAX
    ensures LastVisible(base, BatchEntries(s, now, term, base, cmds))
            == base + |BatchEntries(s, now, term, base, cmds)|
  {
    hide EvalAll;
  }

  /** The batch failed, and its last command to run was the first that fails. */
  ghost predicate Broke(s: Store, now: u64, cmds: seq<Command>, ran: nat, error: EngineError) {
    EvalAll(s, now, cmds) == Err(error) && FirstError(s, now, cmds) + 1 == ran
  }

  /**
    What a batch comes to: on the first failing command, or when the one append fails, nothing is logged and the
    undo record is played back; otherwise the queue's store, its replies and one numbered entry per command that
    changed something.
   */
  ghost predicate BatchEnds(s: Store, now: u64, cmds: seq<Command>, term: u64, base: u64, walOk: bool,
                            r: Result<seq<BatchResult>, EngineError>, store: Store, added: seq<Entry>)
    requires base + |cmds| <= U64_MAX
  {
    var e := EvalAll(s, now, cmds);
    if e.Err? then
      r == Err(e.error) && added == [] && store == BatchRestored(s, now, cmds, FirstError(s, now, cmds) + 1)
    else if BatchEntries(s, now, term, base, cmds) != [] && !walOk then
      r == Err(Io) && added == [] && store == BatchRestored(s, now, cmds, |cmds|)
    else r.Ok? && Reached(s, now, cmds, store, added, r.value, term, base)
  }

  /** Of the commands that ran, none was a CLEAR, or those before the first had changed nothing. */
  ghost predicate NothingCleared(s: Store, now: u64, cmds: seq<Command>) {
    var ran := if EvalAll(s, now, cmds).Err? then FirstError(s, now, cmds) + 1 else |cmds|;
    ran <= FirstClearAll(cmds) || QueueStore(s, now, cmds[..FirstClearAll(cmds)]) == Some(Purge(s, now))
  }

  lemma {:induction false} FailedBatchExactly(s: Store, now: u64, cmds: seq<Command>, term: u64, base: u64, walOk: bool,
                                              error: EngineError, store: Store)
    requires base + |cmds| <= U64_MAX && BatchEnds(s, now, cmds, term, base, walOk, Err(error), store, [])
    ensures store == Purge(s, now) <==> NothingCleared(s, now, cmds)
  {
    hide EvalAll, Purge, BatchEntries, Reached;
    var n := if EvalAll(s, now, cmds).Err? then FirstError(s, now, cmds) else |cmds|;
    var ran := if EvalAll(s, now, cmds).Err? then n + 1 else n;
    assert cmds[..|cmds|] == cmds;
    forall i | 0 <= i < ran ensures EvalAll(s, now, cmds[..i]).Ok? {
      assert cmds[..n][..i] == cmds[..i];
      EvalPrefix(s, now, cmds[..n], i);
    }
    BatchUndoExactly(s, now, cmds, ran);
  }

  ghost function Undone(start: Store, cleared: Option<Store>): Store {
    if cleared.Some? then cleared.value else start
  }

  lemma {:induction false} UndoneIs(start: Store, cleared: Option<Store>)
    ensures Undone(start, cleared) == if cleared.Some? then cleared.value else start
  {
  }

  lemma {:induction false} BatchBreaks(s: Store, now: u64, cmds: seq<Command>, ran: nat, error: EngineError,
                                       term: u64, base: u64, walOk: bool)
    requires base + |cmds| <= U64_MAX && Broke(s, now, cmds, ran, error)
    ensures BatchEnds(s, now, cmds, term, base, walOk, Err(error),
                      Undone(Purge(s, now), ClearedBy(s, now, cmds, ran)), [])
  {
  }

  lemma {:induction false} BatchCompletes(s: Store, now: u64, cmds: seq<Command>, store: Store, entries: seq<Entry>,
                       results: seq<BatchResult>, term: u64, base: u64, walOk: bool)
    requires base + |cmds| <= U64_MAX && Reached(s, now, cmds, store, entries, results, term, base)
    ensures Numbered(entries, base)
    ensures entries == [] || walOk ==> BatchEnds(s, now, cmds, term, base, walOk, Ok(results), store, entries)
    ensures entries != [] && !walOk ==>
              BatchEnds(s, now, cmds, term, base, walOk, Err(Io),
                        Undone(Purge(s, now), ClearedBy(s, now, cmds, |cmds|)), [])
  {
  }

  /** The store the undo record copied once `ran` commands had been remembered. */
  ghost function ClearedBy(s: Store, now: u64, cmds: seq<Command>, ran: nat): Option<Store> {
    if FirstClearAll(cmds) < ran then QueueStore(s, now, cmds[..FirstClearAll(cmds)]) else None
  }

  /** One turn of the batch loop. */
  method RunNext(state: EngineState, undo: UndoLog, now: u64, cmds: seq<Command>, i: nat, term: u64,
                 entries: seq<Entry>, results: seq<BatchResult>, ghost s0: Store, ghost base: u64)
    returns (r: Result<(seq<Entry>, seq<BatchResult>), EngineError>)
    requires i < |cmds| && base + |cmds| <= U64_MAX && |entries| <= i && now < U64_MAX
    requires Purged(state.store, now) && state.metadata.lastApplied == base + |entries|
    requires Reached(s0, now, cmds[..i], state.store, entries, results, term, base)
    requires undo.Tracks(Purge(s0, now), state.store, ClearedBy(s0, now, cmds, i))
    modifies state, undo
    ensures r.Err? ==> Broke(s0, now, cmds, i + 1, r.error)
    ensures undo.Tracks(Purge(s0, now), state.store, ClearedBy(s0, now, cmds, i + 1))
    ensures r.Ok? ==>
              && Purged(state.store, now) && entries <= r.value.0 && |entries| <= |r.value.0| <= |entries| + 1
              && Reached(s0, now, cmds[..i + 1], state.store, r.value.0, r.value.1, term, base)
              && state.metadata == if r.value.0 == entries then old(state.metadata)
                                   else old(state.metadata).(lastApplied := base + |r.value.0|, updatedAt := now)
  {
    hide EvalAll, Eval, EvalPurged, ClearedBy, BatchEntries;
    ghost var before := state.store;
    ClearedStep(s0, now, cmds, i, before);
    ReachedStep(s0, now, cmds, i, before, entries, results, term, base);
    var evaluated, ops := RunRemembered(state, undo, now, cmds[i], Purge(s0, now), ClearedBy(s0, now, cmds, i));
    if evaluated.Err? {
      return Err(evaluated.error);
    }
    var entries' := entries;
    if ops != [] {
      var entry := Entry(state.metadata.lastApplied + 1, term, now, ops);
      state.metadata := state.metadata.(lastApplied := entry.sequence, updatedAt := now);
      entries' := entries + [entry];
    } else {
      assert entries + [] == entries;
    }
    r := Ok((entries', results + [BatchResult(evaluated.value, state.metadata.lastApplied)]));
  }

  /** The loop of a batch: every command in place, an entry for each that changed something. */
  method RunBatch(state: EngineState, undo: UndoLog, now: u64, cmds: seq<Command>, term: u64, ghost s0: Store)
    returns (r: Result<seq<BatchResult>, EngineError>, entries: seq<Entry>, ghost ran: nat)
    requires state.store == Purge(s0, now) && now < U64_MAX && state.metadata.lastApplied + |cmds| <= U64_MAX
    requires undo.keys == map[] && undo.clearSnapshot == None
    modifies state, undo
    ensures r.Ok? ==> Reached(s0, now, cmds, state.store, entries, r.value, term, old(state.metadata.lastApplied))
    ensures r.Ok? ==> state.metadata == BatchMetadata(old(state.metadata), now, entries)
    ensures r.Ok? ==> ran == |cmds|
    ensures r.Err? ==> Broke(s0, now, cmds, ran, r.error)
    ensures undo.Tracks(Purge(s0, now), state.store, ClearedBy(s0, now, cmds, ran))
  {
    hide EvalPurged;
    ghost var base := state.metadata.lastApplied;
    var results: seq<BatchResult> := [];
    entries := [];
    PurgeIdempotent(s0, now);
    var i := 0;
    while i < |cmds|
      invariant i <= |cmds| && Purged(state.store, now) && |entries| <= i
      invariant Reached(s0, now, cmds[..i], state.store, entries, results, term, base)
      invariant state.metadata == BatchMetadata(old(state.metadata), now, entries)
      invariant undo.Tracks(Purge(s0, now), state.store, ClearedBy(s0, now, cmds, i))
    {
      var next := RunNext(state, undo, now, cmds, i, term, entries, results, s0, base);
      if next.Err? {
        return Err(next.error), entries, i + 1;
      }
      entries, results := next.value.0, next.value.1;
      i := i + 1;
    }
    assert cmds[..i] == cmds;
    r, ran := Ok(results), i;
  }

  function BatchMetadata(m: Metadata, now: u64, entries: seq<Entry>): Metadata
    requires m.lastApplied + |entries| <= U64_MAX
  {
    if entries == [] then m else m.(lastApplied := m.lastApplied + |entries|, updatedAt := now)
  }

  lemma {:induction false} ClearedStep(s: Store, now: u64, cmds: seq<Command>, i: nat, before: Store)
    requires i < |cmds| && QueueStore(s, now, cmds[..i]) == Some(before)
    ensures ClearedBy(s, now, cmds, i + 1) ==
            if cmds[i].ClearAll? && ClearedBy(s, now, cmds, i).None? then Some(before) else ClearedBy(s, now, cmds, i)
  {
    var c := FirstClearAll(cmds);
    if c < i {
      assert cmds[..i][..c] == cmds[..c];
      EvalPrefix(s, now, cmds[..i], c);
    }
  }

  lemma {:induction false} ReachedStep(s: Store, now: u64, cmds: seq<Command>, i: nat, before: Store,
                                       entries: seq<Entry>, results: seq<BatchResult>, term: u64, base: u64)
    requires i < |cmds| && base + |cmds| <= U64_MAX && Purged(before, now)
    requires Reached(s, now, cmds[..i], before, entries, results, term, base)
    ensures var last := EvalPurged(before, now, cmds[i]);
            && (last.Err? ==> Broke(s, now, cmds, i + 1, last.error))
            && (last.Ok? ==>
                  var entries' := entries + if last.value.ops == [] then []
                                            else [Entry(base + |entries| + 1, term, now, last.value.ops)];
                  Reached(s, now, cmds[..i + 1], last.value.store, entries',
                          results + [BatchResult(last.value.reply, base + |entries'|)], term, base))
  {
    hide EvalPurged, EvalAll, BatchEntries;
    PurgeIdempotent(before, now);
    EvalNext(s, now, cmds, i);
    assert cmds[..i + 1][..i] == cmds[..i];
    if EvalPurged(before, now, cmds[i]).Err? {
      FirstErrorUnique(s, now, cmds, i);
    } else {
      BatchEntriesNext(s, now, term, base, cmds[..i + 1]);
      NumberedFrom(s, now, term, base, cmds[..i + 1]);
    }
  }
}
