/**
  The engine's transactions, batches, direct writes, follower appends, suffix replacements, snapshots and reopenings
  are steps, or runs of steps, of the recovery model, so what holds over all runs there holds of the engine.
 */
module EngineRuns {
  import opened Base
  import opened Keyspace
  import opened Commands
  import opened Direct
  import opened LogCache
  import opened Suffix
  import opened Batch
  import opened Recovery
  import E = Engine

  /** The engine's state is the database's. */
  ghost predicate Shows(engine: E.Engine, db: Database)
    reads engine, engine.state
  {
    && engine.state.store == db.live && engine.state.metadata.lastApplied == |db.log| == |db.times|
    && db.retained <= db.snapshotAt <= |db.log|
    && engine.Baseline() == db.snapshotAt && engine.SnapshotStore() == db.snapshot
    && engine.walEntries == db.log[db.retained..]
    && Continues(db.log, 0)
  }

  /** A cache that is the tail of a numbered log ends at the log's length. */
  lemma {:induction false} LastIsLength(checksum: Checksum, log: seq<Entry>, retained: nat, ids: map<u64, Identity>,
                                        base: u64, last: u64)
    requires Continues(log, 0) && retained <= base <= |log| <= U64_MAX
    requires CacheKept(checksum, log[retained..], ids, base, last)
    ensures last == |log|
  {
    if retained < |log| {
      assert log[retained..][|log| - retained - 1] == log[|log| - 1];
    }
  }

  lemma {:induction false} NumberedContinues(entries: seq<Entry>, n: nat)
    requires n <= U64_MAX && Numbered(entries, n)
    ensures Continues(entries, n)
  {
  }

  lemma {:induction false} ContinuesSplice(log: seq<Entry>, keep: nat, entries: seq<Entry>)
    requires Continues(log, 0) && keep <= |log| && Continues(entries, keep)
    ensures Continues(log[..keep] + entries, 0)
  {
    var spliced := log[..keep] + entries;
    forall i | 0 <= i < |spliced| ensures spliced[i].sequence == SequenceAfter(0 + i) {
      if i < keep {
        assert spliced[i] == log[i];
      } else {
        assert spliced[i] == entries[i - keep];
      }
    }
  }

  // ---------------------------------------------------------------- transactions

  /** The happening a transaction amounts to: its queue, or only the sweep before it. */
  function TransactionAs(now: u64, cmds: seq<Command>, term: u64, stamp: u64, ok: bool): Happening {
    if ok then Queue(now, cmds, term, stamp) else Sweep(now)
  }

  lemma {:induction false} TransactionStep(db: Database, now: u64, cmds: seq<Command>, term: u64, stamp: u64,
                                           walOk: bool, r: Result<seq<Reply>, EngineError>, store: Store,
                                           added: seq<Entry>)
    requires |db.log| < U64_MAX && db.clock <= now < U64_MAX
    requires E.TransactionEnds(db.live, now, cmds, term, |db.log|, stamp, walOk, r, store, added)
    ensures var h := TransactionAs(now, cmds, term, stamp, r.Ok?);
            && Possible(db, h)
            && After(db, h) == db.(live := store, clock := now, log := db.log + added,
                                   times := db.times + seq(|added|, _ => now))
    ensures Numbered(added, |db.log|)
  {
    hide EvalAll;
    assert db.log + [] == db.log && db.times + [] == db.times;
    assert seq(1, _ => now) == [now];
  }

  method Transact(engine: E.Engine, now: u64, stamp: u64, cmds: seq<Command>, walOk: bool, ghost db: Database)
    returns (r: Result<seq<Reply>, EngineError>)
    requires engine.Valid() && Shows(engine, db) && |db.log| < U64_MAX && db.clock <= now < U64_MAX
    modifies engine, engine.state
    ensures engine.Valid() && Shows(engine, After(db, TransactionAs(now, cmds, engine.term, stamp, r.Ok?)))
  {
    hide CacheKept, E.TransactionEnds;
    r := engine.ExecuteTransaction(now, stamp, cmds, walOk);
    ghost var added := engine.walEntries[|old(engine.walEntries)|..];
    assert engine.walEntries == old(engine.walEntries) + added;
    TransactionStep(db, now, cmds, engine.term, stamp, walOk, r, engine.state.store, added);
    Appended(db, added);
    LastIsLength(engine.checksum, db.log + added, db.retained, engine.identities, db.snapshotAt,
                 engine.state.metadata.lastApplied);
  }

  /** What an append does to the retained log. */
  lemma {:induction false} Appended(db: Database, added: seq<Entry>)
    requires db.retained <= |db.log| <= U64_MAX && Continues(db.log, 0) && Numbered(added, |db.log|)
    ensures (db.log + added)[db.retained..] == db.log[db.retained..] + added
    ensures Continues(db.log + added, 0)
  {
    NumberedContinues(added, |db.log|);
    assert db.log[..|db.log|] == db.log;
    ContinuesSplice(db.log, |db.log|, added);
  }

  // ---------------------------------------------------------------- single commands

  /** What a direct command amounts to; a failed append leaves at most the sweep before it. */
  ghost function SingleReaches(db: Database, now: u64, cmd: Command, term: u64, stamp: u64, walOk: bool): Database
    requires Possible(db, Single(now, cmd, term, stamp))
  {
    if walOk || DirectEntry(db.live, now, cmd).None? then After(db, Single(now, cmd, term, stamp))
    else if cmd.MSet? || cmd.ClearAll? then db
    else After(db, Sweep(now))
  }

  lemma {:induction false} SingleEnds(db: Database, now: u64, cmd: Command, term: u64, stamp: u64, walOk: bool,
                                      r: Result<Reply, EngineError>, store: Store, added: seq<Entry>)
    requires |db.log| == |db.times| && |db.log| < U64_MAX && Possible(db, Single(now, cmd, term, stamp))
    requires E.DirectEnds(db.live, now, cmd, term, |db.log|, stamp, walOk, r, store, added)
    ensures var db' := SingleReaches(db, now, cmd, term, stamp, walOk);
            && db'.live == store && db'.log == db.log + added && |db'.log| == |db'.times|
            && db' == db.(live := db'.live, clock := db'.clock, log := db'.log, times := db'.times)
    ensures Numbered(added, |db.log|)
  {
    hide PlanCommand, ApplyOps;
    assert db.log + [] == db.log;
  }

  /** A command outside a batch, `INCR` and `DECR` among them, is the model's `Single`. */
  method RunSingle(engine: E.Engine, now: u64, stamp: u64, cmd: Command, walOk: bool, ghost db: Database)
    returns (r: Result<Reply, EngineError>)
    requires engine.Valid() && Shows(engine, db) && |db.log| < U64_MAX && db.clock <= now < U64_MAX && IsWrite(cmd)
    modifies engine, engine.state
    ensures engine.Valid() && Shows(engine, SingleReaches(db, now, cmd, engine.term, stamp, walOk))
  {
    hide CacheKept, E.DirectEnds, After, PlanCommand;
    r := engine.ExecuteDirect(now, stamp, cmd, walOk);
    ghost var added := engine.walEntries[|old(engine.walEntries)|..];
    assert engine.walEntries == old(engine.walEntries) + added;
    SingleEnds(db, now, cmd, engine.term, stamp, walOk, r, engine.state.store, added);
    Appended(db, added);
    LastIsLength(engine.checksum, db.log + added, db.retained, engine.identities, db.snapshotAt,
                 engine.state.metadata.lastApplied);
  }

  /**
    A direct command that sweeps first leaves the store a queue of one would, with the same answer or error, exactly
    unless the two interpreters part on it.
   */
  lemma {:induction false} SingleIsQueueOfOne(db: Database, now: u64, cmd: Command, term: u64, stamp: u64)
    requires db.clock <= now < U64_MAX && IsWrite(cmd) && !cmd.MSet? && !cmd.ClearAll?
    ensures var plan, queue := PlanCommand(Purge(db.live, now), now, cmd), EvalAll(db.live, now, [cmd]);
            && (plan.Err? <==> queue.Err?) && (plan.Err? ==> plan.error == queue.error)
            && (plan.Ok? ==>
                  var single, one := Single(now, cmd, term, stamp), Queue(now, [cmd], term, stamp);
                  (After(db, single).live == After(db, one).live && [plan.value.reply] == queue.value.replies)
                  <==> !Parts(Purge(db.live, now), cmd))
  {
    hide PlanCommand, EvalPurged, ApplyOps;
    var s := Purge(db.live, now);
    PurgeIdempotent(s, now);
    assert [cmd][..0] == [] && EvalAll(db.live, now, []) == Ok(Effects(s, [], []));
    TwoInterpreters(s, now, cmd);
    if PlanCommand(s, now, cmd).Ok? && PlanCommand(s, now, cmd).value.entry.Some? {
      PlanNeverFails(s, now, cmd);
    }
    assert Eval(s, now, cmd) == EvalPurged(s, now, cmd);
    var queue := EvalAll(db.live, now, [cmd]);
    assert [cmd][0] == cmd && (queue.Err? <==> Eval(s, now, cmd).Err?);
    if queue.Ok? {
      var e := Eval(s, now, cmd).value;
      assert [] + [e.reply] == [e.reply] && [] + e.ops == e.ops;
      assert After(db, Queue(now, [cmd], term, stamp)).live == e.store;
    }
  }

  // ---------------------------------------------------------------- batches

  /** A batch that completes: the sweep, then each command as a queue of its own. */
  function BatchAs(now: u64, cmds: seq<Command>, term: u64): seq<Happening> {
    if cmds == [] then [Sweep(now)]
    else BatchAs(now, cmds[..|cmds| - 1], term) + [Queue(now, [cmds[|cmds| - 1]], term, now)]
  }

  ghost function BatchReaches(db: Database, now: u64, cmds: seq<Command>, term: u64): Database
    requires EvalAll(db.live, now, cmds).Ok? && |db.log| + |cmds| <= U64_MAX
  {
    var added := BatchEntries(db.live, now, term, |db.log|, cmds);
    db.(live := EvalAll(db.live, now, cmds).value.store, clock := now, log := db.log + added,
        times := db.times + seq(|added|, _ => now))
  }

  lemma {:induction false} RunExtends(db: Database, hs: seq<Happening>, mid: Database, h: Happening)
    requires IsRun(db, hs, mid) && Possible(mid, h)
    ensures IsRun(db, hs + [h], After(mid, h))
    decreases |hs|
  {
    hide Possible, After;
    if hs == [] {
      assert [h][0] == h && [h][1..] == [] && [] + [h] == [h];
      assert IsRun(After(mid, h), [], After(mid, h));
    } else {
      assert (hs + [h])[0] == hs[0] && (hs + [h])[1..] == hs[1..] + [h];
      RunExtends(After(db, hs[0]), hs[1..], mid, h);
    }
  }

  /** One command evaluated on a swept store is a queue of one. */
  lemma {:induction false} QueueOfOne(s: Store, now: u64, c: Command)
    requires Purged(s, now)
    ensures var e := Eval(s, now, c);
            EvalAll(s, now, [c]) == if e.Err? then Err(e.error)
                                    else Ok(Effects(e.value.store, e.value.ops, [e.value.reply]))
  {
    hide EvalPurged;
    PurgeIdempotent(s, now);
    assert [c][..0] == [] && EvalAll(s, now, []) == Ok(Effects(s, [], []));
    if Eval(s, now, c).Ok? {
      assert [] + Eval(s, now, c).value.ops == Eval(s, now, c).value.ops;
      assert [] + [Eval(s, now, c).value.reply] == [Eval(s, now, c).value.reply];
    }
  }

  lemma {:induction false} BatchNext(db: Database, now: u64, cmds: seq<Command>, term: u64)
    requires cmds != [] && EvalAll(db.live, now, cmds).Ok? && |db.log| + |cmds| <= U64_MAX && now < U64_MAX
    ensures var mid := BatchReaches(db, now, cmds[..|cmds| - 1], term);
            var h := Queue(now, [cmds[|cmds| - 1]], term, now);
            Possible(mid, h) && After(mid, h) == BatchReaches(db, now, cmds, term)
  {
    hide Eval, EvalAll, BatchEntries, After;
    var init, c := cmds[..|cmds| - 1], cmds[|cmds| - 1];
    BatchEntriesNext(db.live, now, term, |db.log|, cmds);
    var added := BatchEntries(db.live, now, term, |db.log|, init);
    var mid := BatchReaches(db, now, init, term);
    QueueKeepsPurged(db.live, now, init);
    OneQueue(mid, now, c, term);
    var ops := Eval(mid.live, now, c).value.ops;
    if ops != [] {
      var entry := Entry(|db.log| + |added| + 1, term, now, ops);
      assert db.log + (added + [entry]) == db.log + added + [entry];
      assert db.times + seq(|added| + 1, _ => now) == db.times + seq(|added|, _ => now) + [now];
    }
  }

  /** What a queue of one command does to a swept database. */
  lemma {:induction false} OneQueue(db: Database, now: u64, c: Command, term: u64)
    requires db.clock <= now < U64_MAX && Purged(db.live, now) && |db.log| < U64_MAX && Eval(db.live, now, c).Ok?
    ensures var h, e := Queue(now, [c], term, now), Eval(db.live, now, c).value;
            && Possible(db, h)
            && After(db, h) ==
               if e.ops == [] then db.(live := e.store, clock := now)
               else db.(live := e.store, clock := now, log := db.log + [Entry(|db.log| + 1, term, now, e.ops)],
                        times := db.times + [now])
  {
    hide Eval, EvalAll;
    QueueOfOne(db.live, now, c);
  }

  lemma {:induction false} QueueKeepsPurged(s: Store, now: u64, cmds: seq<Command>)
    requires EvalAll(s, now, cmds).Ok? && now < U64_MAX
    ensures Purged(EvalAll(s, now, cmds).value.store, now)
  {
    EvaluationRefinesReplay(s, now, cmds);
  }

  lemma {:induction false} BatchIsARun(db: Database, now: u64, cmds: seq<Command>, term: u64)
    requires EvalAll(db.live, now, cmds).Ok? && |db.log| + |cmds| <= U64_MAX && db.clock <= now < U64_MAX
    ensures IsRun(db, BatchAs(now, cmds, term), BatchReaches(db, now, cmds, term))
    decreases |cmds|
  {
    if cmds == [] {
      var swept := After(db, Sweep(now));
      assert swept == BatchReaches(db, now, cmds, term) by {
        assert db.log + [] == db.log && db.times + seq(0, _ => now) == db.times;
      }
      assert [Sweep(now)][1..] == [] && IsRun(swept, [], swept);
    } else {
      hide Eval, BatchReaches;
      BatchIsARun(db, now, cmds[..|cmds| - 1], term);
      BatchNext(db, now, cmds, term);
      RunExtends(db, BatchAs(now, cmds[..|cmds| - 1], term), BatchReaches(db, now, cmds[..|cmds| - 1], term),
                 Queue(now, [cmds[|cmds| - 1]], term, now));
    }
  }

  /**
    What a batch amounts to: a run of the sweep and one queue per command; or, failing, the sweep alone exactly when
    no `CLEAR` ran after a change.
   */
  method RunGroup(engine: E.Engine, now: u64, cmds: seq<Command>, walOk: bool, ghost db: Database)
    returns (r: Result<seq<E.BatchResult>, EngineError>, ghost db': Database)
    requires engine.Valid() && Shows(engine, db) && |db.log| + |cmds| <= U64_MAX && db.clock <= now < U64_MAX
    modifies engine, engine.state
    ensures engine.Valid()
    ensures r.Ok? ==> IsRun(db, BatchAs(now, cmds, engine.term), db') && Shows(engine, db')
    ensures r.Err? ==> db' == After(db, Sweep(now)) && engine.walEntries == old(engine.walEntries)
    ensures r.Err? ==> (Shows(engine, db') <==> E.NothingCleared(db.live, now, cmds))
  {
    hide E.BatchEnds, E.NothingCleared, CacheKept, IsRun, BatchReaches;
    r := engine.ExecuteCommandBatch(now, cmds, walOk);
    ghost var added := engine.walEntries[|old(engine.walEntries)|..];
    assert engine.walEntries == old(engine.walEntries) + added;
    GroupReaches(db, now, cmds, engine.term, walOk, r, engine.state.store, added);
    if r.Err? {
      db' := After(db, Sweep(now));
    } else {
      db' := db.(live := engine.state.store, clock := now, log := db.log + added,
                 times := db.times + seq(|added|, _ => now));
      Appended(db, added);
      LastIsLength(engine.checksum, db'.log, db.retained, engine.identities, db.snapshotAt,
                   engine.state.metadata.lastApplied);
    }
  }

  lemma {:induction false} GroupReaches(db: Database, now: u64, cmds: seq<Command>, term: u64, walOk: bool,
                     r: Result<seq<E.BatchResult>, EngineError>, store: Store, added: seq<Entry>)
    requires |db.log| + |cmds| <= U64_MAX && db.clock <= now < U64_MAX
    requires E.BatchEnds(db.live, now, cmds, term, |db.log|, walOk, r, store, added)
    ensures r.Err? ==> added == []
    ensures r.Ok? ==>
              && Numbered(added, |db.log|)
              && IsRun(db, BatchAs(now, cmds, term),
                       db.(live := store, clock := now, log := db.log + added,
                           times := db.times + seq(|added|, _ => now)))
  {
    hide EvalAll;
    if r.Ok? {
      BatchIsARun(db, now, cmds, term);
    }
  }

  // ---------------------------------------------------------------- a follower's two ways

  /** A follower's append is a `Follow`, whatever clock readings the leader evaluated the entries at. */
  method AppendFromLeader(engine: E.Engine, entries: seq<Entry>, walOk: bool, ghost db: Database, ghost now: u64,
                          ghost stamps: seq<u64>)
    returns (r: Result<u64, EngineError>)
    requires engine.Valid() && Shows(engine, db) && |db.log| + |entries| <= U64_MAX
    requires db.clock <= now && |stamps| == |entries|
    modifies engine, engine.state
    ensures engine.Valid()
    ensures r.Ok? ==> Possible(db, Follow(now, entries, stamps))
    ensures r.Ok? ==> Shows(engine, After(db, Follow(now, entries, stamps))) && r.value == |db.log| + |entries|
    ensures r.Ok? ==> After(db, Follow(now, entries, stamps)).log == db.log + entries
    ensures r.Err? ==> Shows(engine, db)
  {
    hide ApplyEntries, CacheKept;
    r := engine.ApplyReplicationEntries(entries, walOk);
    if r.Ok? {
      NumberedContinues(entries, |db.log|);
      Appended(db, entries);
    }
  }

  /** The kept prefix of the cache is the kept prefix of the log. */
  lemma {:induction false} KeptIsPrefix(log: seq<Entry>, retained: nat, base: u64, prefix: u64)
    requires Continues(log, 0) && retained <= base <= prefix && |log| <= U64_MAX && retained <= |log|
    requires var kept := Kept(log[retained..], prefix);
             if kept == [] then prefix == base else kept[|kept| - 1].sequence == prefix
    requires base <= |log|
    ensures prefix <= |log| && Kept(log[retained..], prefix) == log[retained..prefix]
  {
    var cache := log[retained..];
    if cache != [] {
      assert cache[0] == log[retained] && cache[0].sequence == retained + 1;
    }
  }

  lemma {:induction false} RewindStep(db: Database, now: u64, prefix: u64, entries: seq<Entry>, checksum: Checksum,
                                      stamps: seq<u64>)
    requires db.clock <= now && |db.log| == |db.times| && |db.log| <= U64_MAX && Continues(db.log, 0)
    requires db.retained <= db.snapshotAt <= |db.log| && prefix + |entries| <= U64_MAX
    requires Accepts(checksum, db.log[db.retained..], db.snapshotAt, prefix, entries)
    requires Condense(checksum, Above(entries, prefix)).Ok?
    requires |stamps| == |Condense(checksum, Above(entries, prefix)).value|
    requires ApplyEntries(db.snapshot, Replaced(checksum, db.log[db.retained..], prefix, entries)).Ok?
    ensures var sent := Condense(checksum, Above(entries, prefix)).value;
            var h := Rewind(now, prefix, sent, stamps);
            && Possible(db, h)
            && After(db, h).log[db.retained..] == Replaced(checksum, db.log[db.retained..], prefix, entries)
            && ApplyEntries(db.snapshot, After(db, h).log[db.retained..]) == Ok(After(db, h).live)
            && Continues(After(db, h).log, 0) && |After(db, h).log| == prefix + |sent| <= U64_MAX
  {
    hide ApplyEntries, Condense;
    var sent := Condense(checksum, Above(entries, prefix)).value;
    KeptIsPrefix(db.log, db.retained, db.snapshotAt, prefix);
    CondensedExactly(checksum, Above(entries, prefix), prefix);
    NumberedContinues(sent, prefix);
    ContinuesSplice(db.log, prefix, sent);
    assert (db.log[..prefix] + sent)[db.retained..] == db.log[db.retained..prefix] + sent;
  }

  /** A suffix replacement is a `Rewind` to the prefix followed by what was sent, without its repetitions. */
  method RewindToLeader(engine: E.Engine, prefix: u64, entries: seq<Entry>, ghost db: Database, ghost now: u64,
                        ghost stamps: seq<u64>)
    returns (r: Result<u64, EngineError>)
    requires engine.Valid() && Shows(engine, db) && prefix + |entries| <= U64_MAX && db.clock <= now
    requires var sent := Condense(engine.checksum, Above(entries, prefix));
             sent.Ok? ==> |stamps| == |sent.value|
    modifies engine, engine.state
    ensures engine.Valid()
    ensures r.Err? ==> Shows(engine, db)
    ensures r.Ok? ==> Condense(engine.checksum, Above(entries, prefix)).Ok?
    ensures r.Ok? ==>
              var h := Rewind(now, prefix, Condense(engine.checksum, Above(entries, prefix)).value, stamps);
              Possible(db, h) && Shows(engine, After(db, h)) && r.value == |After(db, h).log|
  {
    hide ApplyEntries, Condense, Accepts, Replaced, CacheKept;
    r := engine.ReplaceReplicationSuffix(prefix, entries);
    if r.Ok? {
      RewindStep(db, now, prefix, entries, engine.checksum, stamps);
      ghost var h := Rewind(now, prefix, Condense(engine.checksum, Above(entries, prefix)).value, stamps);
      LastIsLength(engine.checksum, After(db, h).log, db.retained, engine.identities, db.snapshotAt,
                   engine.state.metadata.lastApplied);
    }
  }

  // ---------------------------------------------------------------- snapshots and restarts

  method SnapshotAndPrune(engine: E.Engine, now: u64, drop: nat, ghost db: Database)
    requires engine.Valid() && Shows(engine, db) && drop <= |engine.walEntries| && db.clock <= now < U64_MAX
    modifies engine, engine.state
    ensures engine.Valid() && Shows(engine, After(db, Recovery.TakeSnapshot(now, db.retained + drop)))
  {
    hide CacheKept, Purge;
    engine.TakeSnapshot(now, drop);
    assert db.log[db.retained..][drop..] == db.log[db.retained + drop..];
  }

  /** Opening the files an engine left behind is a `Restart`. */
  method Reopen(engine: E.Engine, ghost db: Database) returns (reopened: E.Engine?)
    requires engine.Valid() && Shows(engine, db)
    ensures reopened == null <==> Recovered(db).Err?
    ensures reopened != null ==> reopened.Valid() && Shows(reopened, After(db, Restart))
  {
    hide CacheKept, ApplyEntries, Continues;
    CacheShape(engine.checksum, engine.walEntries, engine.identities, engine.Baseline(),
               engine.state.metadata.lastApplied);
    reopened := E.Engine.Open(engine.checksum, engine.snapshot, engine.wal);
    if reopened != null {
      LastIsLength(engine.checksum, db.log, db.retained, reopened.identities, db.snapshotAt,
                   reopened.state.metadata.lastApplied);
    }
  }

  /** An engine on empty files shows the empty database, where every run starts. */
  method OpenEmpty(checksum: Checksum) returns (engine: E.Engine?)
    ensures engine != null && engine.Valid() && Shows(engine, EMPTY)
  {
    engine := E.Engine.Open(checksum, None, []);
  }
}
