/**
  Whole runs of one engine: command queues, single commands on the direct path, expiry sweeps, snapshots with pruning,
  restarts that replay every retained entry over the snapshot, and the two ways a follower takes a leader's entries:
  appending them, and replacing a suffix by them.  The specification is the fold of the whole log; the live store must
  lag it.
 */
module Recovery {
  import opened Base
  import opened Numbers
  import opened Keyspace
  import opened Commands
  import opened Direct
  import opened Lag
  import opened Overlap

  /**
    `log` is everything ever appended and `times[i]` the clock reading at which entry `i` was evaluated; the
    segments on disk start at index `retained`, and `snapshot` was written when `snapshotAt` entries existed.
   */
  datatype Database = Database(
    live: Store,
    log: seq<Entry>,
    times: seq<u64>,
    snapshot: Store,
    snapshotAt: nat,
    snapshotClock: u64,
    retained: nat,
    clock: u64)

  datatype Happening =
    | Queue(now: u64, cmds: seq<Command>, term: u64, stamp: u64)
    | Single(now: u64, cmd: Command, term: u64, stamp: u64)
    | Follow(now: u64, entries: seq<Entry>, stamps: seq<u64>)
    | Rewind(now: u64, keep: nat, entries: seq<Entry>, stamps: seq<u64>)
    | Sweep(now: u64)
    | TakeSnapshot(now: u64, keepFrom: nat)
    | Restart

  ghost const EMPTY: Database := Database(map[], [], [], map[], 0, 0, 0, 0)

  /** All operations of a list of entries, in order. */
  function Flatten(entries: seq<Entry>): seq<Operation> {
    if entries == [] then [] else entries[0].operations + Flatten(entries[1..])
  }

  lemma {:induction false} FlattenReplays(s: Store, entries: seq<Entry>)
    ensures ApplyEntries(s, entries) == ApplyOps(s, Flatten(entries))
    decreases |entries|
  {
    if entries != [] {
      ApplyOpsConcat(s, entries[0].operations, Flatten(entries[1..]));
      if ApplyOps(s, entries[0].operations).Ok? {
        FlattenReplays(ApplyOps(s, entries[0].operations).value, entries[1..]);
      }
    }
  }

  /** The store of the whole log, folded once. */
  ghost function Fold(log: seq<Entry>): Result<Store, EngineError> {
    ApplyEntries(map[], log)
  }

  /** What `from_paths_with_options` computes: the snapshot, then every retained entry. */
  ghost function Recovered(db: Database): Result<Store, EngineError>
    requires db.retained <= |db.log|
  {
    ApplyEntries(db.snapshot, db.log[db.retained..])
  }

  /** The part of the log that recovery applies although the snapshot contains it. */
  ghost function OverlapOps(db: Database): seq<Operation>
    requires db.retained <= db.snapshotAt <= |db.log|
  {
    Flatten(db.log[db.retained..db.snapshotAt])
  }

  /** The part of the log that the snapshot does not contain. */
  ghost function TailOps(db: Database): seq<Operation>
    requires db.snapshotAt <= |db.log|
  {
    Flatten(db.log[db.snapshotAt..])
  }

  /**
    What a restart needs to come up and show the log, read off the snapshot and the retained log: every key's
    snapshot value can be counted on up to the key's next reset, and no key alive in the end is counted in the overlap
    and reset neither there nor later.
   */
  ghost predicate RestartHarmless(db: Database, now: u64)
    requires db.retained <= db.snapshotAt <= |db.log| && Fold(db.log).Ok?
  {
    forall k :: KeyHarmless(db.snapshot, Fold(db.log).value, OverlapOps(db), TailOps(db), k, now)
  }

  /** Sequences start at one and saturate. */
  function SequenceAfter(entries: nat): u64 {
    if entries < U64_MAX then entries + 1 else U64_MAX
  }

  /** The entries continue the numbering after the first `n`. */
  ghost predicate Continues(entries: seq<Entry>, n: nat) {
    forall i :: 0 <= i < |entries| ==> entries[i].sequence == SequenceAfter(n + i)
  }

  /** The database with its log cut at `keep` and extended. */
  ghost function Spliced(db: Database, keep: nat, entries: seq<Entry>, stamps: seq<u64>): Database
    requires keep <= |db.log| && keep <= |db.times|
  {
    db.(log := db.log[..keep] + entries, times := db.times[..keep] + stamps)
  }

  ghost predicate Possible(db: Database, h: Happening) {
    match h
    case Queue(now, _, _, _) => db.clock <= now < U64_MAX
    case Single(now, cmd, _, _) => db.clock <= now < U64_MAX && IsWrite(cmd)
    case Follow(now, entries, stamps) => db.clock <= now && |entries| == |stamps| && Continues(entries, |db.log|)
    case Rewind(now, keep, entries, stamps) =>
      && db.clock <= now && |entries| == |stamps|
      && db.retained <= db.snapshotAt <= keep <= |db.log| && keep <= |db.times| && Continues(entries, keep)
      && Recovered(Spliced(db, keep, entries, stamps)).Ok?
    case Sweep(now) => db.clock <= now < U64_MAX
    case TakeSnapshot(now, keepFrom) => db.clock <= now < U64_MAX && db.retained <= keepFrom <= |db.log|
    case Restart => db.retained <= db.snapshotAt <= |db.log| && Recovered(db).Ok?
  }

  ghost function After(db: Database, h: Happening): Database
    requires Possible(db, h)
  {
    match h
    case Queue(now, cmds, term, stamp) =>
      var r := EvalAll(db.live, now, cmds);
      if r.Err? then db.(live := Purge(db.live, now), clock := now)
      else if r.value.ops == [] then db.(live := r.value.store, clock := now)
      else db.(live := r.value.store, clock := now,
               log := db.log + [Entry(SequenceAfter(|db.log|), term, stamp, r.value.ops)],
               times := db.times + [now])
    case Single(now, cmd, term, stamp) =>
      var s, entry := SeenDirectly(db.live, now, cmd), DirectEntry(db.live, now, cmd);
      if entry.None? || ApplyOps(s, entry.value).Err? then db.(live := s, clock := now)
      else db.(live := ApplyOps(s, entry.value).value, clock := now,
               log := db.log + [Entry(SequenceAfter(|db.log|), term, stamp, entry.value)],
               times := db.times + [now])
    case Follow(now, entries, stamps) =>
      var r := ApplyEntries(db.live, entries);
      if r.Err? then db.(clock := now)
      else db.(live := r.value, clock := now, log := db.log + entries, times := db.times + stamps)
    case Rewind(now, keep, entries, stamps) =>
      var spliced := Spliced(db, keep, entries, stamps);
      spliced.(live := Recovered(spliced).value, clock := now)
    case Sweep(now) => db.(live := Purge(db.live, now), clock := now)
    case TakeSnapshot(now, keepFrom) =>
      db.(live := Purge(db.live, now), clock := now, snapshot := Purge(db.live, now), snapshotClock := now,
          snapshotAt := |db.log|, retained := keepFrom)
    case Restart => db.(live := Recovered(db).value)
  }

  /**
    The conditions the code does not check.  A counter command never finds an expired value of its key in the log
    fold.  A recovery is harmless (`RestartHarmless`, which is exact).  Entries taken from a leader extend the log as a
    leader's own run would: there are clock readings, no earlier than the last sweep of the store they are applied to,
    at which none of their operations touches an expired entry (`LogKept`, which every safe run keeps).
   */
  ghost predicate Safe(db: Database, h: Happening) {
    match h
    case Queue(now, cmds, _, _) =>
      EvalAll(db.live, now, cmds).Ok? && Fold(db.log).Ok? ==>
        CountersFresh(Fold(db.log).value, EvalAll(db.live, now, cmds).value.ops, now)
    case Single(now, cmd, _, _) =>
      Fold(db.log).Ok? ==> CountersFresh(Fold(db.log).value, DirectOperations(db.live, now, cmd), now)
    case Follow(now, entries, stamps) =>
      LogKept(db.log + entries, db.times + stamps) && (forall t :: t in stamps ==> db.clock <= t <= now)
    case Rewind(now, keep, entries, stamps) =>
      && keep <= |db.log| && keep <= |db.times| && LogKept(db.log[..keep] + entries, db.times[..keep] + stamps)
      && (forall t :: t in stamps ==> db.snapshotClock <= t <= now)
      && (db.retained <= db.snapshotAt <= keep ==> RestartHarmless(Spliced(db, keep, entries, stamps), now))
    case Restart => db.retained <= db.snapshotAt <= |db.log| && Fold(db.log).Ok? ==> RestartHarmless(db, db.clock)
    case _ => true
  }

  ghost predicate IsRun(db: Database, hs: seq<Happening>, db': Database)
    decreases |hs|
  {
    if hs == [] then db' == db
    else Possible(db, hs[0]) && IsRun(After(db, hs[0]), hs[1..], db')
  }

  ghost predicate SafeRun(db: Database, hs: seq<Happening>)
    decreases |hs|
  {
    hs == [] || (Possible(db, hs[0]) && Safe(db, hs[0]) && SafeRun(After(db, hs[0]), hs[1..]))
  }

  // ---------------------------------------------------------------- invariant

  /** Entry `i`, applied to the fold of the entries before it, touched no stale key. */
  ghost predicate EntryScoped(log: seq<Entry>, times: seq<u64>, i: nat)
    requires i < |log| == |times|
  {
    Fold(log[..i]).Ok? && ScopedOps(Fold(log[..i]).value, log[i].operations, times[i])
  }

  ghost predicate LogKept(log: seq<Entry>, times: seq<u64>) {
    && |log| == |times| && Fold(log).Ok?
    && (forall i :: 0 <= i < |log| ==> EntryScoped(log, times, i))
    && (forall i :: 0 <= i < |log| ==> log[i].sequence == SequenceAfter(i))
    && (forall i, j :: 0 <= i <= j < |times| ==> times[i] <= times[j])
  }

  ghost predicate SnapshotKept(db: Database) {
    && db.retained <= db.snapshotAt <= |db.log| == |db.times|
    && Fold(db.log[..db.snapshotAt]).Ok?
    && Lags(db.snapshot, Fold(db.log[..db.snapshotAt]).value, db.snapshotClock)
    && (forall i :: db.snapshotAt <= i < |db.times| ==> db.snapshotClock <= db.times[i])
  }

  /** The durable half: log and snapshot. */
  ghost predicate Durable(db: Database) {
    && LogKept(db.log, db.times)
    && SnapshotKept(db)
    && db.snapshotClock <= db.clock
    && (forall i :: 0 <= i < |db.times| ==> db.times[i] <= db.clock)
  }

  ghost predicate Inv(db: Database) {
    Durable(db) && Lags(db.live, Fold(db.log).value, db.clock)
  }

  lemma {:induction false} KeptLengths(db: Database)
    requires Inv(db)
    ensures |db.log| == |db.times|
  {
  }

  lemma {:induction false} FoldPrefixOk(log: seq<Entry>, i: nat)
    requires Fold(log).Ok? && i <= |log|
    ensures Fold(log[..i]).Ok? && ApplyEntries(Fold(log[..i]).value, log[i..]) == Fold(log)
  {
    assert log == log[..i] + log[i..];
    ApplyEntriesConcat(map[], log[..i], log[i..]);
  }

  lemma {:induction false} LogPrefixKept(log: seq<Entry>, times: seq<u64>, n: nat)
    requires LogKept(log, times) && n <= |log|
    ensures LogKept(log[..n], times[..n]) && Fold(log[..n]).Ok?
  {
    hide Fold, ScopedOps;
    FoldPrefixOk(log, n);
    forall i | 0 <= i < n ensures EntryScoped(log[..n], times[..n], i) {
      assert EntryScoped(log, times, i);
      assert log[..n][..i] == log[..i];
    }
  }

  lemma {:induction false} FoldNext(log: seq<Entry>, i: nat)
    requires i < |log| && Fold(log[..i]).Ok?
    ensures Fold(log[..i + 1]) == ApplyOps(Fold(log[..i]).value, log[i].operations)
  {
    assert log[..i + 1] == log[..i] + [log[i]];
    ApplyEntriesConcat(map[], log[..i], [log[i]]);
    assert [log[i]][1..] == [];
    var t := Fold(log[..i]).value;
    if ApplyOps(t, log[i].operations).Ok? {
      assert ApplyEntries(ApplyOps(t, log[i].operations).value, []) == ApplyOps(t, log[i].operations);
    }
  }

  /** Replaying the rest of the log keeps a lagging copy lagging. */
  lemma {:induction false} TailKeepsLag(x: Store, log: seq<Entry>, times: seq<u64>, i: nat, now: u64, end: u64)
    requires LogKept(log, times) && i <= |log|
    requires Fold(log[..i]).Ok? && Lags(x, Fold(log[..i]).value, now)
    requires (forall j :: i <= j < |times| ==> now <= times[j] <= end) && now <= end
    ensures ApplyEntries(x, log[i..]).Ok? && Lags(ApplyEntries(x, log[i..]).value, Fold(log).value, end)
    decreases |log| - i
  {
    if i == |log| {
      assert log[..i] == log && log[i..] == [];
      LagsLater(x, Fold(log).value, now, end);
    } else {
      var f := Fold(log[..i]).value;
      assert EntryScoped(log, times, i);
      FoldPrefixOk(log, i + 1);
      FoldNext(log, i);
      LagsLater(x, f, now, times[i]);
      OpsKeepLag(x, f, log[i].operations, times[i]);
      assert log[i..][0] == log[i] && log[i..][1..] == log[i + 1..];
      TailKeepsLag(ApplyOps(x, log[i].operations).value, log, times, i + 1, times[i], end);
    }
  }

  /** Operations that touch no expired entry leave an expired key alone until they reset it. */
  lemma {:induction false} ScopedSpares(f: Store, ops: seq<Operation>, k: Key, now: u64)
    requires ScopedOps(f, ops, now) && Stale(f, k, now) && ApplyOps(f, ops).Ok?
    ensures Untouched(ops, k) && (!HasReset(ops, k) ==> Lookup(ApplyOps(f, ops).value, k) == Lookup(f, k))
    decreases |ops|
  {
    if ops != [] {
      HasTail(ops, k);
      if !Resets(ops[0], k) {
        ScopedSpares(ApplyOp(f, ops[0]).value, ops[1..], k, now);
      }
    }
  }

  lemma {:induction false} UntouchedConcat(a: seq<Operation>, b: seq<Operation>, k: Key)
    requires Untouched(a, k) && (HasReset(a, k) || Untouched(b, k))
    ensures Untouched(a + b, k)
    decreases |a|
  {
    if a == [] {
      assert a + b == b;
    } else {
      assert (a + b)[0] == a[0] && (a + b)[1..] == a[1..] + b;
      HasTail(a, k);
      if !Resets(a[0], k) {
        UntouchedConcat(a[1..], b, k);
      }
    }
  }

  /** So does the rest of a kept log. */
  lemma {:induction false} TailUntouched(log: seq<Entry>, times: seq<u64>, i: nat, k: Key, now: u64)
    requires LogKept(log, times) && i <= |log| && Fold(log[..i]).Ok? && Stale(Fold(log[..i]).value, k, now)
    requires forall j :: i <= j < |times| ==> now <= times[j]
    ensures Untouched(Flatten(log[i..]), k)
    decreases |log| - i
  {
    if i < |log| {
      var f, ops := Fold(log[..i]).value, log[i].operations;
      assert EntryScoped(log, times, i);
      FoldPrefixOk(log, i + 1);
      FoldNext(log, i);
      ScopedSpares(f, ops, k, times[i]);
      assert log[i..][0] == log[i] && log[i..][1..] == log[i + 1..];
      if !HasReset(ops, k) {
        TailUntouched(log, times, i + 1, k, times[i]);
      }
      UntouchedConcat(ops, Flatten(log[i + 1..]), k);
    }
  }

  lemma {:induction false} FlattenConcat(a: seq<Entry>, b: seq<Entry>)
    ensures Flatten(a + b) == Flatten(a) + Flatten(b)
    decreases |a|
  {
    if a == [] {
      assert a + b == b;
    } else {
      assert (a + b)[0] == a[0] && (a + b)[1..] == a[1..] + b;
      FlattenConcat(a[1..], b);
    }
  }

  /** The store below the retained log, and the two parts of the retained log over it. */
  lemma {:induction false} RetainedParts(db: Database) returns (base: Store)
    requires Durable(db)
    ensures ApplyOps(base, OverlapOps(db)) == Fold(db.log[..db.snapshotAt])
    ensures ApplyOps(base, OverlapOps(db) + TailOps(db)) == Fold(db.log)
    ensures Recovered(db) == ApplyOps(db.snapshot, OverlapOps(db) + TailOps(db))
  {
    hide ApplyOps, Flatten;
    var p, n := db.retained, db.snapshotAt;
    var middle, rest := db.log[p..n], db.log[n..];
    FoldPrefixOk(db.log, p);
    base := Fold(db.log[..p]).value;
    assert db.log[..n] == db.log[..p] + middle && db.log[p..] == middle + rest;
    ApplyEntriesConcat(map[], db.log[..p], middle);
    FlattenConcat(middle, rest);
    FlattenReplays(base, middle);
    FlattenReplays(base, middle + rest);
    FlattenReplays(db.snapshot, middle + rest);
  }

  /** Recovery comes up and shows the whole log, at an instant from now on, exactly when it is harmless. */
  lemma {:induction false} RecoveryExactly(db: Database, now: u64)
    requires Durable(db) && db.clock <= now
    ensures RestartHarmless(db, now) <==> Recovered(db).Ok? && AgreeLive(Recovered(db).value, Fold(db.log).value, now)
    ensures RestartHarmless(db, now) ==> Lags(Recovered(db).value, Fold(db.log).value, now)
  {
    hide ApplyOps, Flatten, Fold, ApplyEntries, KeyHarmless;
    var base := RetainedParts(db);
    var f := Fold(db.log[..db.snapshotAt]).value;
    forall k | Lookup(db.snapshot, k) != Lookup(f, k) ensures Untouched(TailOps(db), k) {
      assert SameOrExpired(db.snapshot, f, k, db.snapshotClock);
      TailUntouched(db.log, db.times, db.snapshotAt, k, db.snapshotClock);
    }
    OverlapExactly(base, db.snapshot, OverlapOps(db), TailOps(db), db.snapshotClock, now);
  }

  /** Enough, and easy to see: every counter of the overlap comes after a reset of its key there. */
  lemma {:induction false} GuardedIsHarmless(db: Database, now: u64)
    requires Durable(db) && Guarded(OverlapOps(db)) && db.clock <= now
    ensures RestartHarmless(db, now)
  {
    var p, n := db.retained, db.snapshotAt;
    var middle := db.log[p..n];
    FoldPrefixOk(db.log, p);
    FoldPrefixOk(db.log, n);
    assert db.log[..n] == db.log[..p] + middle;
    ApplyEntriesConcat(map[], db.log[..p], middle);
    var base := Fold(db.log[..p]).value;
    FlattenReplays(base, middle);
    FlattenReplays(db.snapshot, middle);
    GuardedOverlap(base, db.snapshot, Flatten(middle), db.snapshotClock);
    var x := ApplyEntries(db.snapshot, middle).value;
    TailKeepsLag(x, db.log, db.times, n, db.snapshotClock, now);
    assert db.log[p..] == middle + db.log[n..];
    ApplyEntriesConcat(db.snapshot, middle, db.log[n..]);
    LagsAgree(Recovered(db).value, Fold(db.log).value, now, now);
    RecoveryExactly(db, now);
  }

  // ---------------------------------------------------------------- steps

  /** The effect of a queue on the log side of the invariant. */
  lemma {:induction false} QueueFold(db: Database, now: u64, cmds: seq<Command>)
    requires Inv(db) && db.clock <= now < U64_MAX && EvalAll(db.live, now, cmds).Ok?
    requires CountersFresh(Fold(db.log).value, EvalAll(db.live, now, cmds).value.ops, now)
    ensures var f, e := Fold(db.log).value, EvalAll(db.live, now, cmds).value;
            ScopedOps(f, e.ops, now) && ApplyOps(f, e.ops).Ok? && Lags(e.store, ApplyOps(f, e.ops).value, now)
  {
    var f, w, e := Fold(db.log).value, Purge(db.live, now), EvalAll(db.live, now, cmds).value;
    PurgeLags(db.live, f, db.clock, now);
    EvaluationRefinesReplay(db.live, now, cmds);
    QueueHitsLive(db.live, now, cmds);
    EmittedScoped(w, f, e.ops, now);
    OpsKeepLag(w, f, e.ops, now);
  }

  lemma {:induction false} AppendKept(log: seq<Entry>, times: seq<u64>, entry: Entry, now: u64)
    requires LogKept(log, times) && (forall i :: 0 <= i < |times| ==> times[i] <= now)
    requires entry.sequence == SequenceAfter(|log|)
    requires ScopedOps(Fold(log).value, entry.operations, now) && ApplyOps(Fold(log).value, entry.operations).Ok?
    ensures LogKept(log + [entry], times + [now])
    ensures Fold(log + [entry]) == ApplyOps(Fold(log).value, entry.operations)
  {
    var log', times' := log + [entry], times + [now];
    assert log'[..|log|] == log && log'[..|log| + 1] == log';
    FoldNext(log', |log|);
    forall i | 0 <= i < |log'| ensures EntryScoped(log', times', i) {
      if i < |log| {
        assert EntryScoped(log, times, i);
        assert log'[..i] == log[..i];
      }
    }
  }

  lemma {:induction false} QueueStep(db: Database, h: Happening)
    requires Inv(db) && Possible(db, h) && Safe(db, h) && h.Queue?
    ensures Inv(After(db, h))
  {
    var r := EvalAll(db.live, h.now, h.cmds);
    PurgeLags(db.live, Fold(db.log).value, db.clock, h.now);
    if r.Ok? {
      QueueFold(db, h.now, h.cmds);
      var e := r.value;
      if e.ops != [] {
        var entry := Entry(SequenceAfter(|db.log|), h.term, h.stamp, e.ops);
        AppendKept(db.log, db.times, entry, h.now);
        assert (db.log + [entry])[..db.snapshotAt] == db.log[..db.snapshotAt];
      }
    }
  }

  /** What a direct command plans on a store it sees as swept touches only live entries. */
  lemma {:induction false} PlanHitsLive(s: Store, now: u64, cmd: Command)
    requires IsWrite(cmd) && PlanCommand(s, now, cmd).Ok? && PlanCommand(s, now, cmd).value.entry.Some?
    requires cmd.MSet? || cmd.ClearAll? || Purged(s, now)
    ensures HitsLive(s, PlanCommand(s, now, cmd).value.entry.value, now)
  {
    hide ParseI64, RenderI64, EvalMSet, SetAllowed, CountPresent;
    var ops := PlanCommand(s, now, cmd).value.entry.value;
    if cmd.MSet? {
      MSetPlain(s, cmd.entries);
      PlainHitsLive(s, ops, now);
    } else if cmd.DeleteKeys? {
      PlainHitsLive(s, ops, now);
    } else if cmd.Rename? || cmd.RenameNx? {
      RenamePlanHits(s, now, cmd.source, cmd.destination);
    } else if |ops| == 2 {
      if ops[1].Expire? {
        ApplyOne(s, ops[0]);
        WriteThenExpire(s, [ops[0]], ops[1].key, ops[1].expiresAt, now);
        assert ops == [ops[0]] + [ops[1]];
      } else {
        PlainHitsLive(s, ops, now);
      }
    } else {
      assert ops[1..] == [];
    }
  }

  lemma {:induction false} RenamePlanHits(s: Store, now: u64, a: Key, b: Key)
    requires Purged(s, now) && a in s
    ensures HitsLive(s, PlanRename(s, a, b).value, now)
  {
    var ops := PlanRename(s, a, b).value;
    if |ops| == 3 {
      ApplyTwo(s, ops[0], ops[1]);
      WriteThenExpire(s, [ops[0], ops[1]], b, ops[2].expiresAt, now);
      assert ops == [ops[0], ops[1]] + [ops[2]];
    } else {
      PlainHitsLive(s, ops, now);
    }
  }

  /** The store a direct command sees lags the fold. */
  lemma {:induction false} SeenLags(db: Database, now: u64, cmd: Command)
    requires Inv(db) && db.clock <= now
    ensures Lags(SeenDirectly(db.live, now, cmd), Fold(db.log).value, now)
    ensures cmd.MSet? || cmd.ClearAll? || Purged(SeenDirectly(db.live, now, cmd), now)
  {
    hide Fold;
    PurgeLags(db.live, Fold(db.log).value, db.clock, now);
    LagsLater(db.live, Fold(db.log).value, db.clock, now);
  }

  /** A direct command keeps the invariant, whether or not the evaluator would have done the same. */
  lemma {:induction false} SingleStep(db: Database, h: Happening)
    requires Inv(db) && Possible(db, h) && Safe(db, h) && h.Single?
    ensures Inv(After(db, h))
  {
    hide PlanCommand, Fold, Lags, HitsLive, ScopedOps, ApplyOps, CountersFresh, EntryScoped;
    var s, entry, f := SeenDirectly(db.live, h.now, h.cmd), DirectEntry(db.live, h.now, h.cmd), Fold(db.log).value;
    SeenLags(db, h.now, h.cmd);
    if entry.Some? {
      PlanNeverFails(s, h.now, h.cmd);
      PlanHitsLive(s, h.now, h.cmd);
      EmittedScoped(s, f, entry.value, h.now);
      OpsKeepLag(s, f, entry.value, h.now);
      var logged := Entry(SequenceAfter(|db.log|), h.term, h.stamp, entry.value);
      AppendKept(db.log, db.times, logged, h.now);
      assert (db.log + [logged])[..db.snapshotAt] == db.log[..db.snapshotAt];
    }
  }

  /** A safe append from a leader applies, and keeps the live store lagging. */
  lemma {:induction false} FollowStep(db: Database, h: Happening)
    requires Inv(db) && Possible(db, h) && Safe(db, h) && h.Follow?
    ensures ApplyEntries(db.live, h.entries).Ok? && Inv(After(db, h))
  {
    hide Fold, Lags, ApplyEntries;
    var log, times := db.log + h.entries, db.times + h.stamps;
    assert log[..|db.log|] == db.log && log[|db.log|..] == h.entries;
    assert log[..db.snapshotAt] == db.log[..db.snapshotAt];
    forall j | |db.log| <= j < |times| ensures db.clock <= times[j] <= h.now {
      assert times[j] == h.stamps[j - |db.log|] && times[j] in h.stamps;
    }
    TailKeepsLag(db.live, log, times, |db.log|, db.clock, h.now);
  }

  /** Replacing a suffix keeps the snapshot's place in the log. */
  lemma {:induction false} SplicedDurable(db: Database, h: Happening)
    requires Inv(db) && Possible(db, h) && Safe(db, h) && h.Rewind?
    ensures var spliced := Spliced(db, h.keep, h.entries, h.stamps);
            Durable(spliced.(clock := h.now)) && OverlapOps(spliced) == OverlapOps(db)
  {
    hide Fold, Lags, ApplyEntries;
    var log, times := db.log[..h.keep] + h.entries, db.times[..h.keep] + h.stamps;
    assert log[..db.snapshotAt] == db.log[..db.snapshotAt];
    assert log[db.retained..db.snapshotAt] == db.log[db.retained..db.snapshotAt];
    forall j | 0 <= j < |times| ensures times[j] <= h.now && (j >= db.snapshotAt ==> db.snapshotClock <= times[j]) {
      if j >= h.keep {
        assert times[j] == h.stamps[j - h.keep] && times[j] in h.stamps;
      } else {
        assert times[j] == db.times[j];
      }
    }
  }

  lemma {:induction false} RewindStep(db: Database, h: Happening)
    requires Inv(db) && Possible(db, h) && Safe(db, h) && h.Rewind?
    ensures Inv(After(db, h))
  {
    hide Fold, Lags, ApplyEntries, KeyHarmless, Flatten;
    SplicedDurable(db, h);
    var spliced := Spliced(db, h.keep, h.entries, h.stamps);
    var moved := spliced.(clock := h.now);
    assert OverlapOps(moved) == OverlapOps(spliced) && TailOps(moved) == TailOps(spliced);
    assert Recovered(moved) == Recovered(spliced) && RestartHarmless(spliced, h.now);
    assert RestartHarmless(moved, h.now);
    RecoveryExactly(moved, h.now);
  }

  lemma {:induction false} StepInv(db: Database, h: Happening)
    requires Inv(db) && Possible(db, h) && Safe(db, h)
    ensures Inv(After(db, h))
  {
    match h
    case Queue(_, _, _, _) => QueueStep(db, h);
    case Single(_, _, _, _) => SingleStep(db, h);
    case Follow(_, _, _) => FollowStep(db, h);
    case Rewind(_, _, _, _) => RewindStep(db, h);
    case Sweep(now) => PurgeLags(db.live, Fold(db.log).value, db.clock, now);
    case TakeSnapshot(now, keepFrom) =>
      PurgeLags(db.live, Fold(db.log).value, db.clock, now);
      assert db.log[..|db.log|] == db.log;
    case Restart => RecoveryExactly(db, db.clock);
  }

  lemma {:induction false} RunInv(db: Database, hs: seq<Happening>, db': Database)
    requires Inv(db) && IsRun(db, hs, db') && SafeRun(db, hs)
    ensures Inv(db')
    decreases |hs|
  {
    if hs != [] {
      StepInv(db, hs[0]);
      RunInv(After(db, hs[0]), hs[1..], db');
    }
  }

  lemma {:induction false} EmptyInv()
    ensures Inv(EMPTY)
  {
    assert EMPTY.log[..0] == [];
  }

  /**
    Over every safe run, with any interleaving of command queues, direct commands, sweeps, snapshots, pruning,
    restarts, appends from a leader and suffix replacements, the live store and the fold of the whole log show the
    same entry for every key at every instant from now on; and a crash at this point would come up showing what the
    live store shows exactly when it is harmless.
   */
  lemma {:induction false} LiveStoreIsTheLog(hs: seq<Happening>, db: Database, now: u64)
    requires IsRun(EMPTY, hs, db) && SafeRun(EMPTY, hs) && db.clock <= now
    ensures Fold(db.log).Ok? && AgreeLive(db.live, Fold(db.log).value, now)
    ensures SnapshotKept(db)
    ensures Recovered(db).Ok? && AgreeLive(Recovered(db).value, db.live, now) <==> RestartHarmless(db, now)
  {
    hide Fold, Lags, IsRun, SafeRun, RestartHarmless, ApplyEntries;
    EmptyInv();
    RunInv(EMPTY, hs, db);
    LagsAgree(db.live, Fold(db.log).value, db.clock, now);
    RecoveryExactly(db, now);
  }

  /**
    Two engines, any safe runs, the same log: whatever each did in between (sweeps, snapshots, restarts, appends,
    suffix replacements), they show the same entry for every key.
   */
  lemma {:induction false} EqualLogsEqualStores(hs: seq<Happening>, db: Database, hs': seq<Happening>, db': Database,
                                                now: u64)
    requires IsRun(EMPTY, hs, db) && SafeRun(EMPTY, hs) && db.clock <= now
    requires IsRun(EMPTY, hs', db') && SafeRun(EMPTY, hs') && db'.clock <= now
    requires Flatten(db.log) == Flatten(db'.log)
    ensures AgreeLive(db.live, db'.live, now)
  {
    LiveStoreIsTheLog(hs, db, now);
    LiveStoreIsTheLog(hs', db', now);
    FlattenReplays(map[], db.log);
    FlattenReplays(map[], db'.log);
  }

  // ---------------------------------------------------------------- the conditions are needed

  lemma {:induction false} IncrOnce(s: Store, now: u64)
    requires s == map[]
    ensures var one := map["c" := StoredValue([49], None, 1)];
            EvalAll(s, now, [Incr("c")]) == Ok(Effects(one, [CheckInteger("c", 1)], [Integer(1)]))
  {
    assert [Incr("c")][..0] == [];
    assert Purge(s, now) == map[];
    assert EvalAll(s, now, []) == Ok(Effects(map[], [], []));
    assert ParseI64(ZERO) == Some(0) by { ParseRender(0); assert RenderI64(0) == ZERO; }
    assert RenderI64(1) == [49];
    var one := map["c" := StoredValue([49], None, 1)];
    assert Eval(map[], now, Incr("c")) == Ok(Effect(one, [CheckInteger("c", 1)], Integer(1)));
    assert [] + [CheckInteger("c", 1)] == [CheckInteger("c", 1)] && [] + [Integer(1)] == [Integer(1)];
  }

  /** INCR, SNAPSHOT, restart: the counter reads two. */
  lemma {:induction false} RestartCountsTwice()
    ensures exists db :: IsRun(EMPTY, [Queue(1, [Incr("c")], 0, 1), TakeSnapshot(2, 0), Restart], db)
              && db.live == map["c" := StoredValue([50], None, 2)]
              && Fold(db.log) == Ok(map["c" := StoredValue([49], None, 1)])
  {
    var one: Store, two: Store := map["c" := StoredValue([49], None, 1)], map["c" := StoredValue([50], None, 2)];
    var hs := [Queue(1, [Incr("c")], 0, 1), TakeSnapshot(2, 0), Restart];
    IncrOnce(map[], 1);
    var db1 := After(EMPTY, hs[0]);
    var entry := Entry(1, 0, 1, [CheckInteger("c", 1)]);
    assert [] + [entry] == [entry];
    assert db1.log == [entry] && db1.live == one;
    assert Purge(one, 2) == one;
    var db2 := After(db1, hs[1]);
    assert db2.snapshot == one && db2.log[0..] == [entry];
    CountOne(map[], one);
    CountTwo(one, two);
    OneEntry(one, entry);
    OneEntry(map[], entry);
    var db3 := After(db2, hs[2]);
    assert hs[1..] == [TakeSnapshot(2, 0), Restart] && hs[1..][1..] == [Restart] && hs[1..][1..][1..] == [];
    assert IsRun(db2, [Restart], db3);
    assert IsRun(db1, hs[1..], db3);
    assert IsRun(EMPTY, hs, db3);
  }

  lemma {:induction false} CountOne(s: Store, t: Store)
    requires s == map[] && t == map["c" := StoredValue([49], None, 1)]
    ensures ApplyOps(s, [CheckInteger("c", 1)]) == Ok(t)
  {
    ApplyOne(s, CheckInteger("c", 1));
    assert ParseI64(ZERO) == Some(0) by { ParseRender(0); assert RenderI64(0) == ZERO; }
    assert RenderI64(1) == [49];
  }

  lemma {:induction false} CountTwo(s: Store, t: Store)
    requires s == map["c" := StoredValue([49], None, 1)] && t == map["c" := StoredValue([50], None, 2)]
    ensures ApplyOps(s, [CheckInteger("c", 1)]) == Ok(t)
  {
    ApplyOne(s, CheckInteger("c", 1));
    assert ParseI64([49]) == Some(1) by { ParseRender(1); assert RenderI64(1) == [49]; }
    assert RenderI64(2) == [50];
    assert s["c" := StoredValue([50], None, 2)] == t;
  }

  /**
    A leader persists a key at 80 that would expire at 90; a follower that swept at 100 before the entry arrived
    has dropped the key for good.
   */
  lemma {:induction false} EarlySweepLosesAKey()
    ensures var hs := [Follow(10, [Entry(1, 0, 10, [Set("k", [], 1), Expire("k", 90)])], [10]), Sweep(100),
                       Follow(100, [Entry(2, 0, 80, [Persist("k")])], [80])];
            exists db :: IsRun(EMPTY, hs, db) && db.live == map[]
              && Fold(db.log) == Ok(map["k" := StoredValue([], None, 1)])
  {
    var one, two := Entry(1, 0, 10, [Set("k", [], 1), Expire("k", 90)]), Entry(2, 0, 80, [Persist("k")]);
    var hs := [Follow(10, [one], [10]), Sweep(100), Follow(100, [two], [80])];
    var mortal: Store, kept: Store := map["k" := StoredValue([], Some(90), 1)], map["k" := StoredValue([], None, 1)];
    ApplyTwo(map[], Set("k", [], 1), Expire("k", 90));
    assert WithExpiry(kept, "k", Some(90)) == mortal;
    assert WithExpiry(mortal, "k", None) == kept;
    OneEntry(map[], one);
    ApplyOne(map[], Persist("k"));
    ApplyOne(mortal, Persist("k"));
    OneEntry(map[], two);
    OneEntry(mortal, two);
    ApplyEntriesConcat(map[], [one], [two]);
    var db1 := After(EMPTY, hs[0]);
    assert [] + [one] == [one];
    assert db1.live == mortal && db1.log == [one];
    assert Purge(mortal, 100) == map[];
    var db2 := After(db1, hs[1]);
    var db3 := After(db2, hs[2]);
    assert db3.live == map[] && Fold(db3.log) == Ok(kept);
    assert hs[1..] == [Sweep(100), hs[2]] && hs[1..][1..] == [hs[2]] && hs[1..][1..][1..] == [];
    assert IsRun(db2, [hs[2]], db3);
    assert IsRun(db1, hs[1..], db3);
    assert IsRun(EMPTY, hs, db3);
  }

  lemma {:induction false} OneEntry(s: Store, e: Entry)
    ensures ApplyEntries(s, [e]) == ApplyOps(s, e.operations)
  {
    assert [e][1..] == [];
    if ApplyOps(s, e.operations).Ok? {
      assert ApplyEntries(ApplyOps(s, e.operations).value, []) == ApplyOps(s, e.operations);
    }
  }

  lemma {:induction false} SetText(s: Store, now: u64, v: Bytes)
    requires s == map["c" := StoredValue([49], None, 1)] && v == [120]
    ensures EvalAll(s, now, [SetKey("c", v, PLAIN)]) ==
            Ok(Effects(map["c" := StoredValue(v, None, 2)], [Set("c", v, 2)], [Done]))
  {
    var cmd := SetKey("c", v, PLAIN);
    assert [cmd][..0] == [] && Purge(s, now) == s;
    assert EvalAll(s, now, []) == Ok(Effects(s, [], []));
    assert s["c" := StoredValue(v, None, 2)] == map["c" := StoredValue(v, None, 2)];
    assert Eval(s, now, cmd) == Ok(Effect(map["c" := StoredValue(v, None, 2)], [Set("c", v, 2)], Done));
    assert [] + [Set("c", v, 2)] == [Set("c", v, 2)] && [] + [Done] == [Done];
  }

  const PLAIN: SetOptions := SetOptions(None, None, None, false, false)

  lemma {:induction false} TextRefused(s: Store, first: Entry, second: Entry)
    requires s == map["c" := StoredValue([120], None, 2)] && first.operations == [CheckInteger("c", 1)]
    ensures ApplyEntries(s, [first, second]).Err?
  {
    assert ParseI64([120]) == None;
    ApplyOne(s, CheckInteger("c", 1));
  }

  /** INCR c, SET c x, SNAPSHOT: the files left behind cannot be opened again. */
  lemma {:induction false} RestartRefused() returns (hs: seq<Happening>, db: Database)
    ensures IsRun(EMPTY, hs, db) && db.live == map["c" := StoredValue([120], None, 2)]
    ensures db.retained <= db.snapshotAt <= |db.log| && Recovered(db).Err?
  {
    hide EvalAll, ParseI64, ApplyEntries;
    var one: Store, text: Store := map["c" := StoredValue([49], None, 1)], map["c" := StoredValue([120], None, 2)];
    hs := [Queue(1, [Incr("c")], 0, 1), Queue(2, [SetKey("c", [120], PLAIN)], 0, 2), TakeSnapshot(3, 0)];
    IncrOnce(map[], 1);
    var db1 := After(EMPTY, hs[0]);
    var first, second := Entry(1, 0, 1, [CheckInteger("c", 1)]), Entry(2, 0, 2, [Set("c", [120], 2)]);
    assert [] + [first] == [first] && db1.log == [first] && db1.live == one;
    SetText(one, 2, [120]);
    var db2 := After(db1, hs[1]);
    assert db2.log == [first, second] && db2.live == text;
    assert Purge(text, 3) == text;
    db := After(db2, hs[2]);
    assert db.snapshot == text && db.log[0..] == [first, second];
    TextRefused(text, first, second);
    assert hs[1..] == [hs[1], hs[2]] && hs[1..][1..] == [hs[2]] && hs[1..][1..][1..] == [];
    assert IsRun(db2, [hs[2]], db);
    assert IsRun(db1, hs[1..], db);
  }
}
