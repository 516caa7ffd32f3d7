/** The live engine state: store and metadata changed in place, with the undo record that reverts a failed change. */
module LiveState {
  import opened Base
  import opened Numbers
  import opened Keyspace

  lemma {:induction false} SameStore(a: Store, b: Store)
    requires forall k :: Lookup(a, k) == Lookup(b, k)
    ensures a == b
  {
    forall k ensures k in a <==> k in b { assert Lookup(a, k) == Lookup(b, k); }
    forall k | k in a ensures a[k] == b[k] { assert Lookup(a, k) == Lookup(b, k); }
  }

  /** Pre-images of the keys touched so far, or a copy of the whole store once a `Clear` is met. */
  class UndoLog {
    var keys: map<Key, Option<StoredValue>>
    var clearSnapshot: Option<Store>

    constructor ()
      ensures keys == map[] && clearSnapshot == None
    {
      keys, clearSnapshot := map[], None;
    }

    /** Without a `Clear`, the record and the current store together determine the starting store. */
    ghost predicate Covers(start: Store, current: Store)
      reads this
    {
      && (forall k :: k in keys ==> keys[k] == Lookup(start, k))
      && (forall k :: k !in keys ==> Lookup(current, k) == Lookup(start, k))
    }

    /** What the record knows after any number of changes that began at `start` and first met a `Clear` at `cleared`. */
    ghost predicate Tracks(start: Store, current: Store, cleared: Option<Store>)
      reads this
    {
      clearSnapshot == cleared && (cleared.None? ==> Covers(start, current))
    }

    /** The record stays true, and stays true however this key changes from here on. */
    method RememberKey(store: Store, key: Key, ghost start: Store, ghost cleared: Option<Store>)
      requires Tracks(start, store, cleared)
      modifies this
      ensures cleared.None? ==> key in keys && old(keys).Keys <= keys.Keys
      ensures forall later :: SameBesides(later, store, key) ==> Tracks(start, later, cleared)
    {
      if clearSnapshot.Some? || key in keys {
        return;
      }
      keys := keys[key := Lookup(store, key)];
    }

    /** Whatever becomes of the store, the record stands for the store at the first `Clear`. */
    method RememberClear(store: Store, ghost start: Store, ghost cleared: Option<Store>)
      requires Tracks(start, store, cleared)
      modifies this
      ensures forall later :: Tracks(start, later, FirstCleared(cleared, store))
    {
      if clearSnapshot.None? {
        clearSnapshot := Some(store);
        keys := map[];
      }
    }
  }

  function FirstCleared(cleared: Option<Store>, store: Store): Option<Store> {
    if cleared.None? then Some(store) else cleared
  }

  /** Two stores that agree on every other key. */
  ghost predicate SameBesides(a: Store, b: Store, key: Key) {
    forall k :: k != key ==> Lookup(a, k) == Lookup(b, k)
  }

  class EngineState {
    var store: Store
    var metadata: Metadata

    constructor (store: Store, metadata: Metadata)
      ensures this.store == store && this.metadata == metadata
    {
      this.store, this.metadata := store, metadata;
    }

    /** Collects the expired keys, then removes them one by one. */
    method PurgeExpired(now: u64) returns (removed: nat)
      modifies this
      ensures store == Purge(old(store), now)
      ensures removed == |old(store)| - |store|
      ensures metadata == if removed > 0 then old(metadata).(updatedAt := now) else old(metadata)
    {
      var expired := set k | k in store && Expired(store[k], now);
      removed := 0;
      while expired != {}
        invariant expired == set k | k in store && Expired(store[k], now)
        invariant forall k :: k in store ==> k in old(store) && store[k] == old(store)[k]
        invariant forall k :: k in old(store) && k !in store ==> Expired(old(store)[k], now)
        invariant removed == |old(store)| - |store| && metadata == old(metadata)
        decreases expired
      {
        var k :| k in expired;
        assert store.Keys == (store - {k}).Keys + {k};
        store := store - {k};
        expired := expired - {k};
        removed := removed + 1;
      }
      assert forall k :: k in store ==> k !in expired;
      assert store == Purge(old(store), now);
      if removed > 0 {
        metadata := metadata.(updatedAt := now);
      }
    }

    method Rollback(undo: UndoLog, previous: Metadata, ghost start: Store, ghost cleared: Option<Store>)
      requires undo.Tracks(start, store, cleared)
      modifies this
      ensures metadata == previous
      ensures store == if cleared.Some? then cleared.value else start
    {
      if undo.clearSnapshot.Some? {
        store := undo.clearSnapshot.value;
      } else {
        var todo := undo.keys.Keys;
        ghost var before := store;
        while todo != {}
          invariant todo <= undo.keys.Keys
          invariant forall k :: k in undo.keys && k !in todo ==> Lookup(store, k) == undo.keys[k]
          invariant forall k :: k !in undo.keys || k in todo ==> Lookup(store, k) == Lookup(before, k)
          decreases todo
        {
          var k :| k in todo;
          match undo.keys[k] {
            case Some(value) => store := store[k := value];
            case None => store := store - {k};
          }
          todo := todo - {k};
        }
        SameStore(store, start);
      }
      metadata := previous;
    }

    /** Remembers the pre-image, then changes the store; a failing operation changes nothing. */
    method ApplyOperation(op: Operation, undo: UndoLog, ghost start: Store, ghost cleared: Option<Store>)
      returns (r: Result<(), EngineError>)
      requires undo.Tracks(start, store, cleared)
      modifies this`store, undo
      ensures r.Err? ==> ApplyOp(old(store), op) == Err(r.error) && store == old(store)
      ensures r.Ok? ==> ApplyOp(old(store), op) == Ok(store)
      ensures undo.Tracks(start, store, if op.Clear? && cleared.None? then Some(old(store)) else cleared)
    {
      ghost var before := store;
      assert op.Clear? || SameBesides(store, before, op.key);
      match op {
        case Set(key, value, version) =>
          undo.RememberKey(store, key, start, cleared);
          store := store[key := StoredValue(value, None, version)];
        case Delete(key) =>
          undo.RememberKey(store, key, start, cleared);
          store := store - {key};
        case Expire(key, at) =>
          undo.RememberKey(store, key, start, cleared);
          if key in store {
            store := store[key := store[key].(expiresAt := Some(at))];
          }
        case Persist(key) =>
          undo.RememberKey(store, key, start, cleared);
          if key in store {
            store := store[key := store[key].(expiresAt := None)];
          }
        case Clear =>
          undo.RememberClear(store, start, cleared);
          store := map[];
          assert undo.Tracks(start, store, FirstCleared(cleared, before));
        case CheckInteger(key, delta) =>
          undo.RememberKey(store, key, start, cleared);
          r := Count(key, delta);
          return;
      }
      assert op.Clear? || SameBesides(store, before, op.key);
      return Ok(());
    }

    /** The counter step: parse, add, check the range, write back. */
    method Count(key: Key, delta: int) returns (r: Result<(), EngineError>)
      modifies this`store
      ensures r.Err? ==> ApplyOp(old(store), CheckInteger(key, delta)) == Err(r.error) && store == old(store)
      ensures r.Ok? ==> ApplyOp(old(store), CheckInteger(key, delta)) == Ok(store)
      ensures SameBesides(store, old(store), key)
    {
      hide ParseI64, RenderI64;
      var current := Lookup(store, key);
      var parsed := ParseI64(if current.Some? then current.value.value else ZERO);
      if parsed.None? {
        return Err(InvalidIntegerValue(key));
      }
      if !InI64(parsed.value + delta) {
        return Err(NumericOverflow(key));
      }
      var version := if current.Some? then SatAdd(current.value.version, 1) else 1;
      store := store[key := StoredValue(RenderI64(parsed.value + delta), None, version)];
      return Ok(());
    }

    /** Applies one entry: all of it, or nothing except what the undo record has forgotten. */
    method ApplyEntry(entry: Entry) returns (r: Result<(), EngineError>)
      modifies this
      ensures r.Ok? <==> ApplyOps(old(store), entry.operations).Ok?
      ensures r.Ok? ==> ApplyOps(old(store), entry.operations) == Ok(store)
      ensures r.Ok? ==> metadata == old(metadata).(lastApplied := entry.sequence, updatedAt := entry.createdAt)
      ensures r.Err? ==> ApplyOps(old(store), entry.operations) == Err(r.error)
      ensures r.Err? ==> metadata == old(metadata) && store == Restored(old(store), entry.operations)
      ensures r.Err? ==>
                var ops, c := entry.operations, FirstClear(entry.operations);
                store == old(store)
                <==> FailsAt(old(store), ops) <= c || ApplyOps(old(store), ops[..c]) == Ok(old(store))
    {
      var previous := metadata;
      var undo := new UndoLog();
      ghost var start, ops := store, entry.operations;
      ghost var c := FirstClear(ops);
      ghost var cleared: Option<Store> := None;
      var n := 0;
      while n < |entry.operations|
        invariant n <= |ops| && metadata == previous && fresh(undo)
        invariant ApplyOps(start, ops[..n]) == Ok(store)
        invariant undo.Tracks(start, store, cleared)
        invariant cleared.Some? <==> c < n
        invariant cleared.Some? ==> ApplyOps(start, ops[..c]) == Ok(cleared.value)
      {
        assert ops[..n + 1] == ops[..n] + [ops[n]];
        ApplyOpsLast(start, ops[..n], ops[n]);
        ghost var before := store;
        r := ApplyOperation(entry.operations[n], undo, start, cleared);
        if ops[n].Clear? && cleared.None? {
          cleared := Some(before);
        }
        if r.Err? {
          FailsAtUnique(start, ops, n);
          UndoExactly(start, ops);
          Rollback(undo, previous, start, cleared);
          return;
        }
        n := n + 1;
      }
      assert ops[..n] == ops;
      metadata := metadata.(lastApplied := entry.sequence, updatedAt := entry.createdAt);
      r := Ok(());
    }
  }
}
