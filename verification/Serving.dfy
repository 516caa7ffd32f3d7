/** The worker thread and the engine together: one turn takes a group of writes, runs it and answers it. */
module Serving {
  import opened Base
  import opened Numbers
  import opened Keyspace
  import opened Commands
  import opened Direct
  import opened Batch
  import opened LogCache
  import opened Worker
  import Meaning
  import E = Engine

  /** Where in the log an answer stands: the sequence, and the identity of the entry there if it is still cached. */
  datatype Position = Position(sequence: u64, identity: Option<Identity>)

  function PositionOf(ids: map<u64, Identity>, sequence: u64): Position {
    Position(sequence, if sequence != 0 && sequence in ids then Some(ids[sequence]) else None)
  }

  /** A position carries the identity of the cached entry with its sequence, and none if there is no such entry. */
  lemma {:induction false} PositionMeans(checksum: Checksum, entries: seq<Entry>, ids: map<u64, Identity>,
                                         sequence: u64)
    requires IdentifiesExactly(checksum, entries, ids) && sequence > 0
    ensures PositionOf(ids, sequence).identity.Some? <==> HasSequence(entries, sequence)
    ensures forall i :: 0 <= i < |entries| && entries[i].sequence == sequence ==>
              PositionOf(ids, sequence).identity == Some(IdentityOf(checksum, entries[i]))
  {
  }

  // ---------------------------------------------------------------- what is batched

  /**
    A command that is batched is a write that never fails; and every write that never fails, and can have something to
    log, is batched.
   */
  lemma {:induction false} BatchableExactly(c: Command)
    ensures Batchable(c) ==> IsWrite(c) && forall s, now :: Eval(s, now, c).Ok?
    ensures (forall s, now :: Eval(s, now, c).Ok?) && (exists s, now :: !Meaning.Quiet(s, now, c)) ==> Batchable(c)
    ensures Batchable(c) && c.GetEx? ==> exists s, now :: !Meaning.Quiet(s, now, c)
  {
    hide ParseI64, EvalMSet, EvalDelete, SetAllowed;
    if c.Incr? || c.Decr? {
      TextFails(c.key, 1);
      TextFails(c.key, -1);
      assert Eval(TextAt(c.key), 0, c).Err?;
    } else if c.OutsideTransactions? {
      assert Eval(map[], 0, c).Err?;
    } else if c.GetEx? && Batchable(c) {
      var s: Store := map[c.key := StoredValue([], Some(1), 1)];
      assert !Meaning.Quiet(s, 0, c);
    }
  }

  function TextAt(k: Key): Store {
    map[k := StoredValue([120], None, 1)]
  }

  lemma {:induction false} TextFails(k: Key, delta: int)
    ensures EvalCounter(Purge(TextAt(k), 0), k, delta) == Err(InvalidIntegerValue(k))
  {
    assert Purge(TextAt(k), 0) == TextAt(k);
    assert ParseI64([120]) == None;
  }

  /** So a group the worker forms can fail only in the log. */
  lemma {:induction false} BatchNeverFails(s: Store, now: u64, cmds: seq<Command>)
    requires forall i :: 0 <= i < |cmds| ==> Batchable(cmds[i])
    ensures EvalAll(s, now, cmds).Ok?
    decreases |cmds|
  {
    hide Eval, Batchable;
    if cmds != [] {
      BatchNeverFails(s, now, cmds[..|cmds| - 1]);
      BatchableExactly(cmds[|cmds| - 1]);
    }
  }

  // ---------------------------------------------------------------- a turn

  ghost predicate AllExecute(group: seq<Request>) {
    forall i :: 0 <= i < |group| ==> group[i].Execute?
  }

  function CommandsOf(group: seq<Request>): (cmds: seq<Command>)
    requires forall i :: 0 <= i < |group| ==> group[i].Execute?
    ensures |cmds| == |group| && forall i :: 0 <= i < |group| ==> cmds[i] == group[i].command
  {
    seq(|group|, i requires 0 <= i < |group| => group[i].command)
  }

  /**
    How a group of batched writes is answered.  If the log refuses them, the first request learns that and the others
    that there is no answer.  Otherwise request `i` is answered with the reply of the i-th command of the queue, and
    with the sequence of the last entry the first `i + 1` commands logged.
   */
  ghost predicate GroupAnswered<R>(s: Store, now: u64, group: seq<Request>, base: u64, walOk: bool,
                                   render: (nat, Reply) -> Result<R, EngineError>, ids: map<u64, Identity>,
                                   answers: seq<(nat, Result<(R, Position), Failure<EngineError>>)>)
  {
    && group != [] && AllExecute(group) && base + |group| <= U64_MAX && |answers| == |group|
    && var cmds, term := CommandsOf(group), group[0].term;
       && EvalAll(s, now, cmds).Ok?
       && (forall i :: 0 <= i < |group| ==> answers[i].0 == group[i].id)
       && if BatchEntries(s, now, term, base, cmds) != [] && !walOk
          then forall i :: 0 <= i < |group| ==> answers[i].1 == Err(if i == 0 then Failed(Io) else WorkerClosed)
          else forall i :: 0 <= i < |group| ==> ReplyAnswered(s, now, cmds, term, base, i, group[i].id, render, ids,
                                                              answers[i].1)
  }

  ghost predicate ReplyAnswered<R>(s: Store, now: u64, cmds: seq<Command>, term: u64, base: u64, i: nat, id: nat,
                                   render: (nat, Reply) -> Result<R, EngineError>, ids: map<u64, Identity>,
                                   answer: Result<(R, Position), Failure<EngineError>>)
    requires base + |cmds| <= U64_MAX && i < |cmds| && EvalAll(s, now, cmds).Ok?
  {
    && EvalAll(s, now, cmds[..i + 1]).Ok?
    && var sequence := base + |BatchEntries(s, now, term, base, cmds[..i + 1])|;
       && sequence <= U64_MAX
       && var rendered := render(id, EvalAll(s, now, cmds).value.replies[i]);
          answer == if rendered.Ok? then Ok((rendered.value, PositionOf(ids, sequence)))
                    else Err(Failed(rendered.error))
  }

  /** A write that is not batched: its own reply, or its own error, at the end of the log it leaves. */
  ghost predicate SingleAnswered<R>(s: Store, now: u64, r: Request, base: u64, stamp: u64, walOk: bool, store: Store,
                                    added: seq<Entry>, render: (nat, Reply) -> Result<R, EngineError>,
                                    ids: map<u64, Identity>,
                                    answers: seq<(nat, Result<(R, Position), Failure<EngineError>>)>)
  {
    && r.Execute? && base < U64_MAX && base + |added| <= U64_MAX
    && exists reply :: E.DirectEnds(s, now, r.command, r.term, base, stamp, walOk, reply, store, added)
         && answers == [(r.id, Rendered(r.id, reply, render, PositionOf(ids, base + |added|)))]
  }

  function Rendered<R>(id: nat, reply: Result<Reply, EngineError>, render: (nat, Reply) -> Result<R, EngineError>,
                       at: Position): Result<(R, Position), Failure<EngineError>>
  {
    if reply.Err? then Err(Failed(reply.error))
    else if render(id, reply.value).Err? then Err(Failed(render(id, reply.value).error))
    else Ok((render(id, reply.value).value, at))
  }

  function Pairs(results: seq<E.BatchResult>): seq<(Reply, u64)> {
    seq(|results|, i requires 0 <= i < |results| => (results[i].reply, results[i].lastApplied))
  }

  /** What the answers to a group say, from what the batch came to. */
  lemma {:induction false} GroupMeans<R>(s: Store, now: u64, group: seq<Request>, base: u64, walOk: bool,
                                         r: Result<seq<E.BatchResult>, EngineError>, store: Store, added: seq<Entry>,
                                         render: (nat, Reply) -> Result<R, EngineError>, ids: map<u64, Identity>,
                                         stateAt: u64 -> Result<Position, EngineError>,
                                         answers: seq<(nat, Result<(R, Position), Failure<EngineError>>)>)
    requires group != [] && AllExecute(group) && base + |group| <= U64_MAX
    requires forall i :: 0 <= i < |group| ==> Batchable(group[i].command)
    requires E.BatchEnds(s, now, CommandsOf(group), group[0].term, base, walOk, r, store, added)
    requires forall n: u64 :: stateAt(n) == Ok(PositionOf(ids, n))
    requires r.Ok? ==> |r.value| == |group|
    requires OwnAnswers(group, if r.Ok? then Ok(Pairs(r.value)) else Err(r.error), render, stateAt, answers)
    ensures GroupAnswered(s, now, group, base, walOk, render, ids, answers)
  {
    hide EvalAll, BatchEntries, Batchable, E.Answers, PositionOf;
    var cmds, term := CommandsOf(group), group[0].term;
    BatchNeverFails(s, now, cmds);
    if r.Ok? {
      forall i | 0 <= i < |group|
        ensures ReplyAnswered(s, now, cmds, term, base, i, group[i].id, render, ids, answers[i].1)
      {
        E.AnswersMean(s, now, term, base, cmds, i);
      }
    }
  }

  method RunGroup<R>(engine: E.Engine, group: seq<Request>, now: u64, walOk: bool,
                     render: (nat, Reply) -> Result<R, EngineError>)
    returns (answers: seq<(nat, Result<(R, Position), Failure<EngineError>>)>)
    requires engine.Valid() && now < U64_MAX && group != [] && AllExecute(group)
    requires engine.state.metadata.lastApplied + |group| <= U64_MAX
    requires forall i :: 0 <= i < |group| ==> Batchable(group[i].command)
    modifies engine, engine.state
    ensures engine.Valid() && old(engine.walEntries) <= engine.walEntries
    ensures GroupAnswered(old(engine.state.store), now, group, old(engine.state.metadata.lastApplied), walOk, render,
                          engine.identities, answers)
    ensures |answers| == |group| && forall i :: 0 <= i < |group| ==> answers[i].0 == group[i].id
  {
    hide E.BatchEnds, CacheKept, GroupAnswered, EvalAll, Batchable, E.NothingCleared;
    engine.term := group[0].term;
    var results := engine.ExecuteCommandBatch(now, CommandsOf(group), walOk);
    Answerable(old(engine.state.store), now, CommandsOf(group), group[0].term, old(engine.state.metadata.lastApplied),
               walOk, results, engine.state.store, engine.walEntries[|old(engine.walEntries)|..]);
    var outcome := if results.Ok? then Ok(Pairs(results.value)) else Err(results.error);
    var ids := engine.identities;
    var stateAt := (n: u64) => Ok(PositionOf(ids, n));
    answers := Answer(group, outcome, render, stateAt);
    GroupMeans(old(engine.state.store), now, group, old(engine.state.metadata.lastApplied), walOk, results,
               engine.state.store, engine.walEntries[|old(engine.walEntries)|..], render, ids, stateAt, answers);
  }

  lemma {:induction false} Answerable(s: Store, now: u64, cmds: seq<Command>, term: u64, base: u64, walOk: bool,
                                      r: Result<seq<E.BatchResult>, EngineError>, store: Store, added: seq<Entry>)
    requires base + |cmds| <= U64_MAX && E.BatchEnds(s, now, cmds, term, base, walOk, r, store, added)
    ensures r.Ok? ==> |r.value| == |cmds|
  {
    hide EvalAll, BatchEntries;
  }

  method RunOne<R>(engine: E.Engine, r: Request, now: u64, stamp: u64, walOk: bool,
                   render: (nat, Reply) -> Result<R, EngineError>)
    returns (answers: seq<(nat, Result<(R, Position), Failure<EngineError>>)>)
    requires engine.Valid() && r.Execute? && IsWrite(r.command) && engine.state.metadata.lastApplied < U64_MAX
    modifies engine, engine.state
    ensures engine.Valid() && old(engine.walEntries) <= engine.walEntries
    ensures SingleAnswered(old(engine.state.store), now, r, old(engine.state.metadata.lastApplied), stamp, walOk,
                           engine.state.store, engine.walEntries[|old(engine.walEntries)|..], render,
                           engine.identities, answers)
    ensures |answers| == 1 && answers[0].0 == r.id
  {
    hide E.DirectEnds, IdentifiesExactly, CacheKept, IsWrite, PositionOf, Rendered;
    engine.term := r.term;
    var reply := engine.ExecuteDirect(now, stamp, r.command, walOk);
    ghost var added := engine.walEntries[|old(engine.walEntries)|..];
    assert engine.walEntries == old(engine.walEntries) + added;
    AtMostOne(old(engine.state.store), now, r.command, r.term, old(engine.state.metadata.lastApplied), stamp, walOk,
              reply, engine.state.store, added);
    LastAfter(engine.checksum, old(engine.walEntries), old(engine.identities), engine.identities, engine.Baseline(),
              old(engine.state.metadata.lastApplied), engine.state.metadata.lastApplied, added);
    var at := PositionOf(engine.identities, engine.state.metadata.lastApplied);
    answers := [(r.id, Rendered(r.id, reply, render, at))];
  }

  lemma {:induction false} AtMostOne(s: Store, now: u64, cmd: Command, term: u64, base: u64, stamp: u64, walOk: bool,
                                     r: Result<Reply, EngineError>, store: Store, added: seq<Entry>)
    requires base < U64_MAX && E.DirectEnds(s, now, cmd, term, base, stamp, walOk, r, store, added)
    ensures |added| <= 1 && (added != [] ==> added[0].sequence == base + 1)
  {
    hide PlanCommand, ApplyOps;
  }

  /** A cache that grew by one entry at most ends that much later. */
  lemma {:induction false} LastAfter(checksum: Checksum, entries: seq<Entry>, ids: map<u64, Identity>,
                                     ids': map<u64, Identity>, base: u64, last: u64, last': u64, added: seq<Entry>)
    requires CacheKept(checksum, entries, ids, base, last) && CacheKept(checksum, entries + added, ids', base, last')
    requires |added| <= 1 && (added != [] ==> added[0].sequence == last + 1)
    ensures last' == last + |added|
  {
    if added == [] {
      assert entries + added == entries;
    } else {
      assert (entries + added)[|entries + added| - 1] == added[0];
    }
  }

  /**
    One turn whose front request is a write: the group is formed, run and answered.  Every request that is run is
    answered once, with its own reply and its own place in the log.
   */
  method ServeWrites<R>(worker: EngineWorker, engine: E.Engine, late: seq<Request>, now: u64, stamp: u64, walOk: bool,
                        render: (nat, Reply) -> Result<R, EngineError>)
    returns (answers: seq<(nat, Result<(R, Position), Failure<EngineError>>)>)
    requires worker.Valid() && worker.pending + worker.channel != [] && worker.answered == Ids(worker.done)
    requires engine.Valid() && now < U64_MAX && engine.state.metadata.lastApplied + 64 <= U64_MAX
    requires var first := (worker.pending + worker.channel)[0]; first.Execute? && IsWrite(first.command)
    modifies worker, engine, engine.state
    ensures worker.Valid() && worker.answered == Ids(worker.done) && engine.Valid()
    ensures worker.arrived == old(worker.arrived) + late
    ensures var group := TurnOf(old(worker.pending), old(worker.channel), late, worker.syncData).group;
            && worker.done == old(worker.done) + group && old(engine.walEntries) <= engine.walEntries
            && Served(old(engine.state.store), now, group, old(engine.state.metadata.lastApplied), stamp, walOk,
                      engine.state.store, engine.walEntries[|old(engine.walEntries)|..], render, engine.identities,
                      answers)
  {
    hide TurnOf, Overtakes, Apart, Served, CacheKept, Batchable, AllExecute;
    GroupKind(worker.pending, worker.channel, late, worker.syncData);
    var group := worker.Turn(late);
    answers := RunWrites(engine, group, now, stamp, walOk, render);
    worker.answered := worker.answered + Ids(group);
    IdsConcat(old(worker.done), group);
  }

  ghost predicate Served<R>(s: Store, now: u64, group: seq<Request>, base: u64, stamp: u64, walOk: bool, store: Store,
                            added: seq<Entry>, render: (nat, Reply) -> Result<R, EngineError>, ids: map<u64, Identity>,
                            answers: seq<(nat, Result<(R, Position), Failure<EngineError>>)>)
  {
    && group != [] && |answers| == |group| && (forall i :: 0 <= i < |group| ==> answers[i].0 == group[i].id)
    && if group[0].Execute? && Batchable(group[0].command)
       then GroupAnswered(s, now, group, base, walOk, render, ids, answers)
       else |group| == 1 && SingleAnswered(s, now, group[0], base, stamp, walOk, store, added, render, ids, answers)
  }

  method RunWrites<R>(engine: E.Engine, group: seq<Request>, now: u64, stamp: u64, walOk: bool,
                      render: (nat, Reply) -> Result<R, EngineError>)
    returns (answers: seq<(nat, Result<(R, Position), Failure<EngineError>>)>)
    requires engine.Valid() && now < U64_MAX && 1 <= |group| <= 64 && AllExecute(group) && IsWrite(group[0].command)
    requires engine.state.metadata.lastApplied + 64 <= U64_MAX
    requires if Batchable(group[0].command) then forall i :: 0 <= i < |group| ==> Batchable(group[i].command)
             else |group| == 1
    modifies engine, engine.state
    ensures engine.Valid() && old(engine.walEntries) <= engine.walEntries
    ensures Served(old(engine.state.store), now, group, old(engine.state.metadata.lastApplied), stamp, walOk,
                   engine.state.store, engine.walEntries[|old(engine.walEntries)|..], render, engine.identities,
                   answers)
  {
    hide GroupAnswered, SingleAnswered, CacheKept, Batchable, IsWrite;
    if Batchable(group[0].command) {
      answers := RunGroup(engine, group, now, walOk, render);
    } else {
      answers := RunOne(engine, group[0], now, stamp, walOk, render);
    }
  }

  /** A group that starts with a write is batched writes only, or that one write. */
  lemma {:induction false} GroupKind(pending: seq<Request>, channel: seq<Request>, late: seq<Request>, syncData: bool)
    requires pending + channel != []
    requires (pending + channel)[0].Execute? && IsWrite((pending + channel)[0].command)
    ensures var g := TurnOf(pending, channel, late, syncData).group;
            && 1 <= |g| <= 64 && AllExecute(g) && IsWrite(g[0].command)
            && (if Batchable(g[0].command) then forall i :: 0 <= i < |g| ==> Batchable(g[i].command) else |g| == 1)
  {
    hide TurnOf, Batchable, IsWrite;
    GroupUniform(pending, channel, late, syncData);
  }
}
