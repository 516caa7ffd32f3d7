/** The batch evaluator as the engine runs it: it changes the live state in place and collects operations. */
module Evaluator {
  import opened Base
  import opened Numbers
  import opened Keyspace
  import opened LiveState
  import opened Commands
  import Meaning

  /** Metadata after a purge at `now`. */
  function PurgedMetadata(s: Store, m: Metadata, now: u64): Metadata {
    if |s| - |Purge(s, now)| > 0 then m.(updatedAt := now) else m
  }

  method EvaluateSet(state: EngineState, now: u64, key: Key, value: Bytes, o: SetOptions)
    returns (reply: Reply, ops: seq<Operation>)
    modifies state`store
    ensures Effect(state.store, ops, reply) == EvalSet(old(state.store), now, key, value, o)
    ensures Purged(old(state.store), now) ==>
              Meaning.SetMeant(old(state.store), now, key, value, o, state.store, reply)
  {
    hide Meaning.SetMeant;
    PurgeIdempotent(state.store, now);
    Meaning.SetMeans(state.store, now, key, value, o);
    var previous := Lookup(state.store, key);
    ops := [];
    var allowed := match o.condition
      case Some(Nx) => previous.None?
      case Some(Xx) => previous.Some?
      case None => true;
    if o.ifVersion.Some? {
      allowed := allowed && previous.Some? && previous.value.version == o.ifVersion.value;
    }
    if !allowed {
      reply := SetReply(previous, o, false);
      return;
    }
    var version := NextVersion(previous);
    state.store := state.store[key := StoredValue(value, None, version)];
    ops := ops + [Set(key, value, version)];
    if o.expiration.Some? {
      var at := ResolveExpiration(now, o.expiration.value);
      if at <= now {
        state.store := state.store - {key};
        ops := ops + [Delete(key)];
      } else {
        state.store := state.store[key := state.store[key].(expiresAt := Some(at))];
        ops := ops + [Expire(key, at)];
      }
    } else if o.keepTtl && previous.Some? && previous.value.expiresAt.Some? {
      state.store := state.store[key := state.store[key].(expiresAt := previous.value.expiresAt)];
      ops := ops + [Expire(key, previous.value.expiresAt.value)];
    }
    reply := SetReply(previous, o, true);
  }

  method EvaluateGetEx(state: EngineState, now: u64, key: Key, expiration: Option<Expiration>, persist: bool)
    returns (reply: Reply, ops: seq<Operation>)
    modifies state`store
    ensures Effect(state.store, ops, reply) == EvalGetEx(old(state.store), now, key, expiration, persist)
  {
    if key !in state.store {
      return NotFound, [];
    }
    ops := [];
    reply := Value(state.store[key].value);
    if expiration.Some? {
      var at := ResolveExpiration(now, expiration.value);
      if at <= now {
        state.store := state.store - {key};
        ops := [Delete(key)];
      } else {
        state.store := state.store[key := state.store[key].(expiresAt := Some(at))];
        ops := [Expire(key, at)];
      }
    } else if persist && state.store[key].expiresAt.Some? {
      state.store := state.store[key := state.store[key].(expiresAt := None)];
      ops := [Persist(key)];
    }
  }

  method EvaluateMSet(state: EngineState, entries: seq<(Key, Bytes)>) returns (ops: seq<Operation>)
    modifies state`store
    ensures (state.store, ops) == EvalMSet(old(state.store), entries)
  {
    ops := [];
    var i := 0;
    while i < |entries|
      invariant i <= |entries| && (state.store, ops) == EvalMSet(old(state.store), entries[..i])
    {
      assert entries[..i + 1][..i] == entries[..i];
      var (key, value) := entries[i];
      var version := NextVersion(Lookup(state.store, key));
      state.store := state.store[key := StoredValue(value, None, version)];
      ops := ops + [Set(key, value, version)];
      i := i + 1;
    }
    assert entries[..i] == entries;
  }

  method EvaluateDelete(state: EngineState, keys: seq<Key>) returns (removed: nat, ops: seq<Operation>)
    modifies state`store
    ensures (state.store, ops) == EvalDelete(old(state.store), keys) && removed == |ops|
  {
    ops, removed := [], 0;
    var i := 0;
    while i < |keys|
      invariant i <= |keys| && (state.store, ops) == EvalDelete(old(state.store), keys[..i]) && removed == |ops|
    {
      assert keys[..i + 1][..i] == keys[..i];
      if keys[i] in state.store {
        state.store := state.store - {keys[i]};
        removed := removed + 1;
        ops := ops + [Delete(keys[i])];
      }
      i := i + 1;
    }
    assert keys[..i] == keys;
  }

  method EvaluateCounter(state: EngineState, key: Key, delta: int)
    returns (r: Result<Reply, EngineError>, ops: seq<Operation>)
    modifies state`store
    ensures r.Ok? ==> EvalCounter(old(state.store), key, delta) == Ok(Effect(state.store, ops, r.value))
    ensures r.Err? ==> EvalCounter(old(state.store), key, delta) == Err(r.error)
                       && state.store == old(state.store) && ops == []
  {
    var current := if key in state.store then state.store[key].value else ZERO;
    var parsed := ParseI64(current);
    if parsed.None? {
      return Err(InvalidIntegerValue(key)), [];
    }
    if !InI64(parsed.value + delta) {
      return Err(NumericOverflow(key)), [];
    }
    var version := NextVersion(Lookup(state.store, key));
    state.store := state.store[key := StoredValue(RenderI64(parsed.value + delta), None, version)];
    return Ok(Integer(parsed.value + delta)), [CheckInteger(key, delta)];
  }

  method EvaluateExpire(state: EngineState, now: u64, key: Key, seconds: u64)
    returns (reply: Reply, ops: seq<Operation>)
    modifies state`store
    ensures Effect(state.store, ops, reply) == EvalExpire(old(state.store), now, key, seconds)
  {
    if key !in state.store {
      return Boolean(false), [];
    }
    if seconds == 0 {
      state.store := state.store - {key};
      return Boolean(true), [Delete(key)];
    }
    var at := SatAdd(now, SatMul(seconds, 1000));
    state.store := state.store[key := state.store[key].(expiresAt := Some(at))];
    return Boolean(true), [Expire(key, at)];
  }

  method EvaluateRename(state: EngineState, source: Key, destination: Key)
    returns (reply: Reply, ops: seq<Operation>)
    modifies state`store
    ensures Effect(state.store, ops, reply) == EvalRename(old(state.store), source, destination)
  {
    if source !in state.store {
      return Boolean(false), [];
    }
    var moved := state.store[source];
    state.store := state.store - {source};
    var version := NextVersion(Lookup(state.store, destination));
    state.store := state.store[destination := StoredValue(moved.value, None, version)];
    ops := [Delete(source), Set(destination, moved.value, version)];
    if moved.expiresAt.Some? {
      state.store := state.store[destination := state.store[destination].(expiresAt := moved.expiresAt)];
      ops := ops + [Expire(destination, moved.expiresAt.value)];
    }
    reply := Boolean(true);
  }

  predicate IsPlainRead(cmd: Command) {
    cmd.GetKey? || cmd.MGet? || cmd.Exists? || cmd.Ttl? || cmd.DbSize?
  }

  /** Commands that only look; the evaluator answers them from the purged store. */
  method EvaluateRead(state: EngineState, now: u64, cmd: Command) returns (reply: Reply)
    requires IsPlainRead(cmd)
    ensures EvalPurged(state.store, now, cmd) == Ok(Effect(state.store, [], reply))
  {
    match cmd {
      case GetKey(key) => reply := ValueOrNotFound(ValueOf(Lookup(state.store, key)));
      case MGet(keys) =>
        var values: seq<Option<Bytes>> := [];
        while |values| < |keys|
          invariant |values| <= |keys|
          invariant forall i :: 0 <= i < |values| ==> values[i] == ValueOf(Lookup(state.store, keys[i]))
        {
          values := values + [ValueOf(Lookup(state.store, keys[|values|]))];
        }
        assert values == EvalPurged(state.store, now, cmd).value.reply.values;
        reply := Values(values);
      case Exists(key) => reply := Boolean(key in state.store);
      case Ttl(key) => reply := Integer(TtlOf(Lookup(state.store, key), now));
      case DbSize => reply := Count(|state.store|);
    }
  }

  method EvaluateCommand(state: EngineState, now: u64, cmd: Command)
    returns (r: Result<Reply, EngineError>, ops: seq<Operation>)
    modifies state
    ensures r.Ok? ==> Eval(old(state.store), now, cmd) == Ok(Effect(state.store, ops, r.value))
    ensures r.Err? ==> Eval(old(state.store), now, cmd) == Err(r.error)
                       && state.store == Purge(old(state.store), now) && ops == []
    ensures state.metadata == PurgedMetadata(old(state.store), old(state.metadata), now)
    ensures Meaning.Meant(old(state.store), now, cmd, state.store, r)
  {
    hide Meaning.Meant;
    Meaning.CommandMeant(state.store, now, cmd);
    r, ops := RunCommand(state, now, cmd);
  }

  method RunCommand(state: EngineState, now: u64, cmd: Command)
    returns (r: Result<Reply, EngineError>, ops: seq<Operation>)
    modifies state
    ensures r.Ok? ==> Eval(old(state.store), now, cmd) == Ok(Effect(state.store, ops, r.value))
    ensures r.Err? ==> Eval(old(state.store), now, cmd) == Err(r.error)
                       && state.store == Purge(old(state.store), now) && ops == []
    ensures state.metadata == PurgedMetadata(old(state.store), old(state.metadata), now)
  {
    hide Meaning.SetMeant, EvalSet, EvalGetEx, EvalMSet, EvalDelete, EvalCounter, EvalExpire, EvalRename, TtlOf;
    var _ := state.PurgeExpired(now);
    ops := [];
    if IsPlainRead(cmd) {
      var reply := EvaluateRead(state, now, cmd);
      return Ok(reply), [];
    }
    match cmd {
      case GetDel(key) =>
        if key in state.store {
          var value := state.store[key].value;
          state.store := state.store - {key};
          return Ok(Value(value)), [Delete(key)];
        }
        return Ok(NotFound), [];
      case GetEx(key, expiration, persist) =>
        var reply, emitted := EvaluateGetEx(state, now, key, expiration, persist);
        return Ok(reply), emitted;
      case SetKey(key, value, o) =>
        var reply, emitted := EvaluateSet(state, now, key, value, o);
        return Ok(reply), emitted;
      case SetNx(key, value) =>
        if key in state.store {
          return Ok(Boolean(false)), [];
        }
        state.store := state.store[key := StoredValue(value, None, NextVersion(None))];
        return Ok(Boolean(true)), [Set(key, value, NextVersion(None))];
      case MSet(entries) =>
        ops := EvaluateMSet(state, entries);
        return Ok(Done), ops;
      case DeleteKeys(keys) =>
        var removed, emitted := EvaluateDelete(state, keys);
        return Ok(Count(removed)), emitted;
      case Incr(key) => r, ops := EvaluateCounter(state, key, 1);
      case Decr(key) => r, ops := EvaluateCounter(state, key, -1);
      case ExpireKey(key, seconds) =>
        var reply, emitted := EvaluateExpire(state, now, key, seconds);
        return Ok(reply), emitted;
      case PersistKey(key) =>
        if key in state.store && state.store[key].expiresAt.Some? {
          state.store := state.store[key := state.store[key].(expiresAt := None)];
          return Ok(Boolean(true)), [Persist(key)];
        }
        return Ok(Boolean(false)), [];
      case Rename(source, destination) =>
        var reply, emitted := EvaluateRename(state, source, destination);
        return Ok(reply), emitted;
      case RenameNx(source, destination) =>
        if destination in state.store {
          return Ok(Boolean(false)), [];
        }
        var reply, emitted := EvaluateRename(state, source, destination);
        return Ok(reply), emitted;
      case ClearAll =>
        if state.store == map[] {
          return Ok(Done), [];
        }
        state.store := map[];
        return Ok(Done), [Clear];
      case _ => return Err(UnsupportedCommand), [];
    }
  }
}
