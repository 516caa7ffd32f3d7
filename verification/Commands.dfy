/**
  Data commands: what each one does to a purged store, which write-ahead operations it emits and what it answers.

  The store is computed the way the evaluator computes it, by direct updates; that replaying the emitted
  operations gives the same store is `EvaluationRefinesReplay`.
 */
module Commands {
  import opened Base
  import opened Numbers
  import opened Keyspace

  datatype SetCondition = Nx | Xx

  datatype Expiration = Seconds(n: u64) | Milliseconds(n: u64)

  datatype SetOptions = SetOptions(
    condition: Option<SetCondition>,
    ifVersion: Option<u64>,
    expiration: Option<Expiration>,
    keepTtl: bool,
    returnPrevious: bool)

  datatype Command =
    | GetKey(key: Key)
    | GetDel(key: Key)
    | GetEx(key: Key, expiration: Option<Expiration>, persist: bool)
    | SetKey(key: Key, value: Bytes, options: SetOptions)
    | SetNx(key: Key, value: Bytes)
    | MGet(keys: seq<Key>)
    | MSet(entries: seq<(Key, Bytes)>)
    | DeleteKeys(keys: seq<Key>)
    | Exists(key: Key)
    | Incr(key: Key)
    | Decr(key: Key)
    | ExpireKey(key: Key, seconds: u64)
    | Ttl(key: Key)
    | PersistKey(key: Key)
    | Rename(source: Key, destination: Key)
    | RenameNx(source: Key, destination: Key)
    | DbSize
    | ClearAll
    | OutsideTransactions

  datatype Reply =
    | Done
    | NotFound
    | Value(bytes: Bytes)
    | Boolean(flag: bool)
    | Count(n: nat)
    | Integer(i: int)
    | Values(values: seq<Option<Bytes>>)

  datatype Effect = Effect(store: Store, ops: seq<Operation>, reply: Reply)

  datatype Effects = Effects(store: Store, ops: seq<Operation>, replies: seq<Reply>)

  const TTL_NO_EXPIRY: int := -1
  const TTL_KEY_MISSING: int := -2

  // ---------------------------------------------------------------- single commands

  function ResolveExpiration(now: u64, expiration: Expiration): u64 {
    match expiration
    case Seconds(n) => SatAdd(now, SatMul(n, 1000))
    case Milliseconds(n) => SatAdd(now, n)
  }

  function ValueOf(e: Option<StoredValue>): Option<Bytes> {
    if e.Some? then Some(e.value.value) else None
  }

  function ValueOrNotFound(v: Option<Bytes>): Reply {
    if v.Some? then Value(v.value) else NotFound
  }

  function RemainingSeconds(ms: u64): int {
    (ms + 999) / 1000
  }

  function TtlOf(e: Option<StoredValue>, now: u64): int {
    if e.None? then TTL_KEY_MISSING
    else if e.value.expiresAt.None? then TTL_NO_EXPIRY
    else if e.value.expiresAt.value <= now then TTL_KEY_MISSING
    else RemainingSeconds(e.value.expiresAt.value - now)
  }

  predicate SetAllowed(previous: Option<StoredValue>, o: SetOptions) {
    && (o.condition == Some(Nx) ==> previous.None?)
    && (o.condition == Some(Xx) ==> previous.Some?)
    && (o.ifVersion.Some? ==> previous.Some? && previous.value.version == o.ifVersion.value)
  }

  function SetReply(previous: Option<StoredValue>, o: SetOptions, applied: bool): Reply {
    if o.returnPrevious then ValueOrNotFound(ValueOf(previous))
    else if o.condition.Some? || o.ifVersion.Some? then Boolean(applied)
    else Done
  }

  /** The expiry a permitted `SET` leaves behind: `None` keeps none, `Some(at)` attaches one. */
  function SetExpiry(previous: Option<StoredValue>, now: u64, o: SetOptions): Option<u64> {
    if o.expiration.Some? then Some(ResolveExpiration(now, o.expiration.value))
    else if o.keepTtl && previous.Some? then previous.value.expiresAt
    else None
  }

  function EvalSet(s: Store, now: u64, k: Key, v: Bytes, o: SetOptions): Effect {
    var previous := Lookup(s, k);
    if !SetAllowed(previous, o) then Effect(s, [], SetReply(previous, o, false))
    else
      var version := NextVersion(previous);
      var written := s[k := StoredValue(v, None, version)];
      var at := SetExpiry(previous, now, o);
      var reply := SetReply(previous, o, true);
      if at.None? then Effect(written, [Set(k, v, version)], reply)
      else if o.expiration.Some? && at.value <= now then
        Effect(Without(written, k), [Set(k, v, version), Delete(k)], reply)
      else Effect(WithExpiry(written, k, at), [Set(k, v, version), Expire(k, at.value)], reply)
  }

  function EvalGetEx(s: Store, now: u64, k: Key, expiration: Option<Expiration>, persist: bool): Effect {
    if k !in s then Effect(s, [], NotFound)
    else
      var reply := Value(s[k].value);
      if expiration.Some? then
        var at := ResolveExpiration(now, expiration.value);
        if at <= now then Effect(Without(s, k), [Delete(k)], reply)
        else Effect(WithExpiry(s, k, Some(at)), [Expire(k, at)], reply)
      else if persist && s[k].expiresAt.Some? then Effect(WithExpiry(s, k, None), [Persist(k)], reply)
      else Effect(s, [], reply)
  }

  /** `MSET` writes its pairs in order, each on the store the previous one left. */
  function EvalMSet(s: Store, entries: seq<(Key, Bytes)>): (r: (Store, seq<Operation>))
    ensures |r.1| == |entries|
  {
    if entries == [] then (s, [])
    else
      var (t, ops) := EvalMSet(s, entries[..|entries| - 1]);
      var (k, v) := entries[|entries| - 1];
      var version := NextVersion(Lookup(t, k));
      (t[k := StoredValue(v, None, version)], ops + [Set(k, v, version)])
  }

  /** `DELETE` removes its keys in order and counts the ones it found. */
  function EvalDelete(s: Store, keys: seq<Key>): (Store, seq<Operation>) {
    if keys == [] then (s, [])
    else
      var (t, ops) := EvalDelete(s, keys[..|keys| - 1]);
      var k := keys[|keys| - 1];
      if k in t then (Without(t, k), ops + [Delete(k)]) else (t, ops)
  }

  function EvalCounter(s: Store, k: Key, delta: int): Result<Effect, EngineError> {
    var next := CounterStep(k, Lookup(s, k), delta);
    if next.Err? then Err(next.error)
    else Ok(Effect(s[k := StoredValue(RenderI64(next.value), None, NextVersion(Lookup(s, k)))],
                   [CheckInteger(k, delta)], Integer(next.value)))
  }

  function EvalExpire(s: Store, now: u64, k: Key, seconds: u64): Effect {
    if k !in s then Effect(s, [], Boolean(false))
    else if seconds == 0 then Effect(Without(s, k), [Delete(k)], Boolean(true))
    else
      var at := SatAdd(now, SatMul(seconds, 1000));
      Effect(WithExpiry(s, k, Some(at)), [Expire(k, at)], Boolean(true))
  }

  function EvalRename(s: Store, source: Key, destination: Key): Effect {
    if source !in s then Effect(s, [], Boolean(false))
    else
      var moved, rest := s[source], Without(s, source);
      var version := NextVersion(Lookup(rest, destination));
      var written := rest[destination := StoredValue(moved.value, None, version)];
      var ops := [Delete(source), Set(destination, moved.value, version)];
      if moved.expiresAt.Some?
      then Effect(WithExpiry(written, destination, moved.expiresAt),
                  ops + [Expire(destination, moved.expiresAt.value)], Boolean(true))
      else Effect(written, ops, Boolean(true))
  }

  /** One command on a store already purged at `now`. */
  function EvalPurged(s: Store, now: u64, cmd: Command): Result<Effect, EngineError> {
    match cmd
    case GetKey(k) => Ok(Effect(s, [], ValueOrNotFound(ValueOf(Lookup(s, k)))))
    case GetDel(k) =>
      if k in s then Ok(Effect(Without(s, k), [Delete(k)], Value(s[k].value))) else Ok(Effect(s, [], NotFound))
    case GetEx(k, expiration, persist) => Ok(EvalGetEx(s, now, k, expiration, persist))
    case SetKey(k, v, o) => Ok(EvalSet(s, now, k, v, o))
    case SetNx(k, v) =>
      if k in s then Ok(Effect(s, [], Boolean(false)))
      else Ok(Effect(s[k := StoredValue(v, None, 1)], [Set(k, v, 1)], Boolean(true)))
    case MGet(keys) => Ok(Effect(s, [], Values(seq(|keys|, i requires 0 <= i < |keys| => ValueOf(Lookup(s, keys[i]))))))
    case MSet(entries) => var (t, ops) := EvalMSet(s, entries); Ok(Effect(t, ops, Done))
    case DeleteKeys(keys) => var (t, ops) := EvalDelete(s, keys); Ok(Effect(t, ops, Count(|ops|)))
    case Exists(k) => Ok(Effect(s, [], Boolean(k in s)))
    case Incr(k) => EvalCounter(s, k, 1)
    case Decr(k) => EvalCounter(s, k, -1)
    case ExpireKey(k, seconds) => Ok(EvalExpire(s, now, k, seconds))
    case Ttl(k) => Ok(Effect(s, [], Integer(TtlOf(Lookup(s, k), now))))
    case PersistKey(k) =>
      if k in s && s[k].expiresAt.Some? then Ok(Effect(WithExpiry(s, k, None), [Persist(k)], Boolean(true)))
      else Ok(Effect(s, [], Boolean(false)))
    case Rename(a, b) => Ok(EvalRename(s, a, b))
    case RenameNx(a, b) => if b in s then Ok(Effect(s, [], Boolean(false))) else Ok(EvalRename(s, a, b))
    case DbSize => Ok(Effect(s, [], Count(|s|)))
    case ClearAll => if s == map[] then Ok(Effect(s, [], Done)) else Ok(Effect(map[], [Clear], Done))
    case OutsideTransactions => Err(UnsupportedCommand)
  }

  /** The evaluator purges first, every time. */
  function Eval(s: Store, now: u64, cmd: Command): Result<Effect, EngineError> {
    EvalPurged(Purge(s, now), now, cmd)
  }

  /** A queue of commands on one working copy, stopping at the first error. */
  function EvalAll(s: Store, now: u64, cmds: seq<Command>): (r: Result<Effects, EngineError>)
    ensures r.Ok? ==> |r.value.replies| == |cmds|
  {
    if cmds == [] then Ok(Effects(Purge(s, now), [], []))
    else
      var before := EvalAll(s, now, cmds[..|cmds| - 1]);
      if before.Err? then before
      else
        var last := Eval(before.value.store, now, cmds[|cmds| - 1]);
        if last.Err? then Err(last.error)
        else Ok(Effects(last.value.store, before.value.ops + last.value.ops, before.value.replies + [last.value.reply]))
  }

  // ---------------------------------------------------------------- replaying what a command emitted

  lemma {:induction false} DeleteEmitsDeletes(s: Store, keys: seq<Key>)
    ensures forall i :: 0 <= i < |EvalDelete(s, keys).1| ==> EvalDelete(s, keys).1[i].Delete?
  {
    if keys != [] {
      DeleteEmitsDeletes(s, keys[..|keys| - 1]);
    }
  }

  lemma {:induction false} ApplyOne(s: Store, op: Operation)
    ensures ApplyOps(s, [op]) == ApplyOp(s, op)
  {
    ApplyOpsLast(s, [], op);
    assert [] + [op] == [op];
  }

  lemma {:induction false} ApplyTwo(s: Store, a: Operation, b: Operation)
    requires ApplyOp(s, a).Ok?
    ensures ApplyOps(s, [a, b]) == ApplyOp(ApplyOp(s, a).value, b)
  {
    ApplyOne(s, a);
    ApplyOpsLast(s, [a], b);
    assert [a] + [b] == [a, b];
  }

  lemma {:induction false} ApplyThree(s: Store, a: Operation, b: Operation, c: Operation)
    requires ApplyOp(s, a).Ok? && ApplyOp(ApplyOp(s, a).value, b).Ok?
    ensures ApplyOps(s, [a, b, c]) == ApplyOp(ApplyOp(ApplyOp(s, a).value, b).value, c)
  {
    ApplyTwo(s, a, b);
    ApplyOpsLast(s, [a, b], c);
    assert [a, b] + [c] == [a, b, c];
  }

  lemma {:induction false} MSetReplays(s: Store, entries: seq<(Key, Bytes)>)
    ensures ApplyOps(s, EvalMSet(s, entries).1) == Ok(EvalMSet(s, entries).0)
  {
    if entries != [] {
      var last := entries[|entries| - 1];
      var (t, ops) := EvalMSet(s, entries[..|entries| - 1]);
      MSetReplays(s, entries[..|entries| - 1]);
      ApplyOpsLast(s, ops, Set(last.0, last.1, NextVersion(Lookup(t, last.0))));
    }
  }

  lemma {:induction false} DeleteReplays(s: Store, keys: seq<Key>)
    ensures ApplyOps(s, EvalDelete(s, keys).1) == Ok(EvalDelete(s, keys).0)
  {
    if keys != [] {
      DeleteReplays(s, keys[..|keys| - 1]);
      ApplyOpsLast(s, EvalDelete(s, keys[..|keys| - 1]).1, Delete(keys[|keys| - 1]));
    }
  }

  lemma {:induction false} SetReplays(s: Store, now: u64, k: Key, v: Bytes, o: SetOptions)
    ensures var e := EvalSet(s, now, k, v, o); ApplyOps(s, e.ops) == Ok(e.store)
  {
    var version, at := NextVersion(Lookup(s, k)), SetExpiry(Lookup(s, k), now, o);
    ApplyOne(s, Set(k, v, version));
    ApplyTwo(s, Set(k, v, version), Delete(k));
    if at.Some? {
      ApplyTwo(s, Set(k, v, version), Expire(k, at.value));
    }
  }

  lemma {:induction false} RenameReplays(s: Store, source: Key, destination: Key)
    ensures var e := EvalRename(s, source, destination); ApplyOps(s, e.ops) == Ok(e.store)
  {
    if source in s {
      var moved, rest := s[source], Without(s, source);
      var write := Set(destination, moved.value, NextVersion(Lookup(rest, destination)));
      ApplyTwo(s, Delete(source), write);
      if moved.expiresAt.Some? {
        ApplyThree(s, Delete(source), write, Expire(destination, moved.expiresAt.value));
        assert [Delete(source), write] + [Expire(destination, moved.expiresAt.value)]
            == [Delete(source), write, Expire(destination, moved.expiresAt.value)];
      }
    }
  }

  /** Replaying a single command's operations never fails and reproduces its store. */
  lemma {:induction false} CommandReplays(s: Store, now: u64, cmd: Command)
    requires EvalPurged(s, now, cmd).Ok?
    ensures var e := EvalPurged(s, now, cmd).value; ApplyOps(s, e.ops) == Ok(e.store)
  {
    if cmd.SetKey? {
      SetReplays(s, now, cmd.key, cmd.value, cmd.options);
    } else if cmd.MSet? {
      MSetReplays(s, cmd.entries);
    } else if cmd.DeleteKeys? {
      DeleteReplays(s, cmd.keys);
    } else if cmd.Rename? || cmd.RenameNx? {
      RenameReplays(s, cmd.source, cmd.destination);
    } else {
      ApplyAtMostOne(s, EvalPurged(s, now, cmd).value.ops);
    }
  }

  lemma {:induction false} ApplyAtMostOne(s: Store, ops: seq<Operation>)
    ensures |ops| == 0 ==> ApplyOps(s, ops) == Ok(s)
    ensures |ops| == 1 ==> ApplyOps(s, ops) == ApplyOp(s, ops[0])
  {
    if |ops| == 1 {
      assert ops == [ops[0]];
      ApplyOne(s, ops[0]);
    }
  }

  lemma {:induction false} MSetPurged(s: Store, now: u64, entries: seq<(Key, Bytes)>)
    requires Purged(s, now)
    ensures Purged(EvalMSet(s, entries).0, now)
  {
    if entries != [] {
      MSetPurged(s, now, entries[..|entries| - 1]);
    }
  }

  lemma {:induction false} DeletePurged(s: Store, now: u64, keys: seq<Key>)
    requires Purged(s, now)
    ensures Purged(EvalDelete(s, keys).0, now)
  {
    if keys != [] {
      DeletePurged(s, now, keys[..|keys| - 1]);
    }
  }

  /** Below the last representable instant no command leaves an already expired key behind. */
  lemma {:induction false} CommandPurged(s: Store, now: u64, cmd: Command)
    requires Purged(s, now) && now < U64_MAX && EvalPurged(s, now, cmd).Ok?
    ensures Purged(EvalPurged(s, now, cmd).value.store, now)
  {
    if cmd.MSet? {
      MSetPurged(s, now, cmd.entries);
    } else if cmd.DeleteKeys? {
      DeletePurged(s, now, cmd.keys);
    }
  }

  lemma {:induction false} PurgeIdempotent(s: Store, now: u64)
    ensures Purged(Purge(s, now), now)
    ensures Purged(s, now) ==> Purge(s, now) == s
  {
  }

  /** Replaying the emitted operations on the purged state gives the working copy, which purging leaves alone. */
  ghost predicate Refines(s: Store, now: u64, cmds: seq<Command>) {
    EvalAll(s, now, cmds).Ok? ==>
      var e := EvalAll(s, now, cmds).value;
      ApplyOps(Purge(s, now), e.ops) == Ok(e.store) && Purged(e.store, now)
  }

  lemma {:induction false} EvaluationRefinesReplay(s: Store, now: u64, cmds: seq<Command>)
    requires now < U64_MAX
    ensures Refines(s, now, cmds)
  {
    PurgeIdempotent(s, now);
    if cmds != [] && EvalAll(s, now, cmds).Ok? {
      var init, last := cmds[..|cmds| - 1], cmds[|cmds| - 1];
      EvaluationRefinesReplay(s, now, init);
      var before := EvalAll(s, now, init).value;
      PurgeIdempotent(before.store, now);
      CommandReplays(before.store, now, last);
      CommandPurged(before.store, now, last);
      ApplyOpsConcat(Purge(s, now), before.ops, EvalPurged(before.store, now, last).value.ops);
    }
  }

  /** At the last instant an `EXPIRE` saturates to "already expired", and the next command no longer sees the key. */
  lemma {:induction false} ReplayDivergesAtLastInstant()
    ensures !Refines(map["a" := StoredValue([], None, 1)], U64_MAX, [ExpireKey("a", 1), Exists("a")])
  {
    var s: Store := map["a" := StoredValue([], None, 1)];
    var cmds := [ExpireKey("a", 1), Exists("a")];
    var t: Store := map["a" := StoredValue([], Some(U64_MAX), 1)];
    assert cmds[..1] == [ExpireKey("a", 1)] && cmds[..1][..0] == [];
    assert Purge(s, U64_MAX) == s;
    var first := EvalAll(s, U64_MAX, cmds[..1]);
    assert EvalAll(s, U64_MAX, []) == Ok(Effects(s, [], []));
    assert SatAdd(U64_MAX, SatMul(1, 1000)) == U64_MAX;
    assert WithExpiry(s, "a", Some(U64_MAX)) == t;
    assert Eval(s, U64_MAX, ExpireKey("a", 1)) == Ok(Effect(t, [Expire("a", U64_MAX)], Boolean(true)));
    assert [] + [Expire("a", U64_MAX)] == [Expire("a", U64_MAX)] && [] + [Boolean(true)] == [Boolean(true)];
    assert first == Ok(Effects(t, [Expire("a", U64_MAX)], [Boolean(true)]));
    assert Purge(t, U64_MAX) == map[];
    ApplyOne(s, Expire("a", U64_MAX));
    assert EvalAll(s, U64_MAX, cmds).value.store == map[];
    assert EvalAll(s, U64_MAX, cmds).value.ops == [Expire("a", U64_MAX)] + [];
    assert t != map[] by { assert "a" in t; }
  }

  /** Evaluation refines replay for every store and command list exactly when the clock is below its last instant. */
  lemma {:induction false} RefinementExactly(now: u64)
    ensures (forall s, cmds :: Refines(s, now, cmds)) <==> now < U64_MAX
  {
    if now < U64_MAX {
      forall s, cmds ensures Refines(s, now, cmds) { EvaluationRefinesReplay(s, now, cmds); }
    } else {
      ReplayDivergesAtLastInstant();
    }
  }
}
