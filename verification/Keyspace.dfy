/**
  The keyspace: a map from keys to values with expiry and version, the write-ahead operations that change it,
  and the object that applies them in place with an undo record.

  `ApplyOps` is the fold every other path of the engine is compared with.
 */
module Keyspace {
  import opened Base
  import opened Numbers

  type Key = string

  datatype StoredValue = StoredValue(value: Bytes, expiresAt: Option<u64>, version: u64)

  type Store = map<Key, StoredValue>

  datatype Operation =
    | Set(key: Key, value: Bytes, version: u64)
    | Delete(key: Key)
    | Expire(key: Key, expiresAt: u64)
    | Persist(key: Key)
    | Clear
    | CheckInteger(key: Key, delta: int)

  datatype Entry = Entry(sequence: u64, term: u64, createdAt: u64, operations: seq<Operation>)

  datatype EngineError =
    | InvalidIntegerValue(key: Key)
    | NumericOverflow(key: Key)
    | UnsupportedCommand
    | InvalidStorageOperation
    | Io

  datatype Metadata = Metadata(updatedAt: u64, lastSnapshotAt: Option<u64>, lastApplied: u64)

  /** The zero a counter starts from, `b"0"`. */
  const ZERO: Bytes := [48]

  // ---------------------------------------------------------------- the fold

  function Lookup(s: Store, k: Key): Option<StoredValue> {
    if k in s then Some(s[k]) else None
  }

  predicate Expired(e: StoredValue, now: u64) {
    e.expiresAt.Some? && e.expiresAt.value <= now
  }

  function Purge(s: Store, now: u64): Store {
    map k | k in s && !Expired(s[k], now) :: s[k]
  }

  /** Nothing in the store has expired. */
  predicate Purged(s: Store, now: u64) {
    forall k :: k in s ==> !Expired(s[k], now)
  }

  function Without(s: Store, k: Key): Store {
    s - {k}
  }

  function WithExpiry(s: Store, k: Key, expiresAt: Option<u64>): Store {
    if k in s then s[k := s[k].(expiresAt := expiresAt)] else s
  }

  function NextVersion(previous: Option<StoredValue>): u64 {
    if previous.Some? then SatAdd(previous.value.version, 1) else 1
  }

  /** The integer a counter step produces, or why it cannot. */
  function CounterStep(k: Key, current: Option<StoredValue>, delta: int): Result<int, EngineError> {
    var parsed := ParseI64(if current.Some? then current.value.value else ZERO);
    if parsed.None? then Err(InvalidIntegerValue(k))
    else if !InI64(parsed.value + delta) then Err(NumericOverflow(k))
    else Ok(parsed.value + delta)
  }

  function ApplyOp(s: Store, op: Operation): Result<Store, EngineError> {
    match op
    case Set(k, v, version) => Ok(s[k := StoredValue(v, None, version)])
    case Delete(k) => Ok(Without(s, k))
    case Expire(k, at) => Ok(WithExpiry(s, k, Some(at)))
    case Persist(k) => Ok(WithExpiry(s, k, None))
    case Clear => Ok(map[])
    case CheckInteger(k, delta) =>
      var next := CounterStep(k, Lookup(s, k), delta);
      if next.Err? then Err(next.error)
      else Ok(s[k := StoredValue(RenderI64(next.value), None, NextVersion(Lookup(s, k)))])
  }

  function ApplyOps(s: Store, ops: seq<Operation>): Result<Store, EngineError>
    decreases |ops|
  {
    if ops == [] then Ok(s)
    else
      var first := ApplyOp(s, ops[0]);
      if first.Err? then first else ApplyOps(first.value, ops[1..])
  }

  function ApplyEntries(s: Store, entries: seq<Entry>): Result<Store, EngineError>
    decreases |entries|
  {
    if entries == [] then Ok(s)
    else
      var first := ApplyOps(s, entries[0].operations);
      if first.Err? then first else ApplyEntries(first.value, entries[1..])
  }

  lemma {:induction false} ApplyOpsConcat(s: Store, a: seq<Operation>, b: seq<Operation>)
    ensures ApplyOps(s, a + b) ==
            if ApplyOps(s, a).Err? then ApplyOps(s, a) else ApplyOps(ApplyOps(s, a).value, b)
    decreases |a|
  {
    if a == [] {
      assert a + b == b;
    } else {
      assert (a + b)[0] == a[0] && (a + b)[1..] == a[1..] + b;
      if ApplyOp(s, a[0]).Ok? {
        ApplyOpsConcat(ApplyOp(s, a[0]).value, a[1..], b);
      }
    }
  }

  lemma {:induction false} ApplyOpsLast(s: Store, ops: seq<Operation>, op: Operation)
    ensures ApplyOps(s, ops + [op]) ==
            if ApplyOps(s, ops).Err? then ApplyOps(s, ops) else ApplyOp(ApplyOps(s, ops).value, op)
  {
    ApplyOpsConcat(s, ops, [op]);
    if ApplyOps(s, ops).Ok? {
      var t := ApplyOps(s, ops).value;
      assert [op][1..] == [];
      if ApplyOp(t, op).Ok? {
        assert ApplyOps(ApplyOp(t, op).value, []) == ApplyOp(t, op);
      }
    }
  }

  lemma {:induction false} ApplyEntriesConcat(s: Store, a: seq<Entry>, b: seq<Entry>)
    ensures ApplyEntries(s, a + b) ==
            if ApplyEntries(s, a).Err? then ApplyEntries(s, a) else ApplyEntries(ApplyEntries(s, a).value, b)
    decreases |a|
  {
    if a == [] {
      assert a + b == b;
    } else {
      assert (a + b)[0] == a[0] && (a + b)[1..] == a[1..] + b;
      if ApplyOps(s, a[0].operations).Ok? {
        ApplyEntriesConcat(ApplyOps(s, a[0].operations).value, a[1..], b);
      }
    }
  }

  // ---------------------------------------------------------------- undo

  /** The key an operation may change; `None` for the operation that changes them all. */
  function Target(op: Operation): Option<Key> {
    match op
    case Clear => None
    case _ => Some(op.key)
  }

  /** Position of the first `Clear`, or the length if there is none. */
  function FirstClear(ops: seq<Operation>): (n: nat)
    ensures n <= |ops|
    ensures n < |ops| ==> ops[n].Clear?
    ensures forall i :: 0 <= i < n ==> !ops[i].Clear?
  {
    if ops == [] then 0
    else if ops[0].Clear? then 0
    else 1 + FirstClear(ops[1..])
  }

  /** Position of the first operation that fails. */
  function FailsAt(s: Store, ops: seq<Operation>): (n: nat)
    requires ApplyOps(s, ops).Err?
    ensures n < |ops|
    ensures ApplyOps(s, ops[..n]).Ok? && ApplyOp(ApplyOps(s, ops[..n]).value, ops[n]) == ApplyOps(s, ops)
    decreases |ops|
  {
    if ApplyOp(s, ops[0]).Err? then
      assert ops[..0] == [];
      0
    else
      var n := FailsAt(ApplyOp(s, ops[0]).value, ops[1..]);
      assert ops[..n + 1][0] == ops[0] && ops[..n + 1][1..] == ops[1..][..n];
      n + 1
  }

  lemma {:induction false} FailsAtUnique(s: Store, ops: seq<Operation>, n: nat)
    requires n < |ops| && ApplyOps(s, ops[..n]).Ok? && ApplyOp(ApplyOps(s, ops[..n]).value, ops[n]).Err?
    ensures ApplyOps(s, ops) == ApplyOp(ApplyOps(s, ops[..n]).value, ops[n]) && FailsAt(s, ops) == n
    decreases n
  {
    if n == 0 {
      assert ops[..0] == [];
    } else {
      assert ops[..n][0] == ops[0] && ops[..n][1..] == ops[1..][..n - 1];
      FailsAtUnique(ApplyOp(s, ops[0]).value, ops[1..], n - 1);
    }
  }

  /**
    What a failed entry leaves behind.  The undo record forgets every earlier pre-image when it meets a `Clear`
    and keeps a copy of the store at that moment instead.
   */
  function Restored(s: Store, ops: seq<Operation>): Store
    requires ApplyOps(s, ops).Err?
  {
    var c := FirstClear(ops);
    if c < FailsAt(s, ops) then
      PrefixOk(s, ops, c);
      ApplyOps(s, ops[..c]).value
    else s
  }

  lemma {:induction false} PrefixOk(s: Store, ops: seq<Operation>, c: nat)
    requires ApplyOps(s, ops).Err? && c <= FailsAt(s, ops)
    ensures ApplyOps(s, ops[..c]).Ok?
  {
    var n := FailsAt(s, ops);
    assert ops[..n] == ops[..c] + ops[c..n];
    ApplyOpsConcat(s, ops[..c], ops[c..n]);
  }

  /**
    A failed entry is undone exactly if and only if no `Clear` comes before the failing operation, or what comes
    before the first `Clear` has no net effect.
   */
  lemma {:induction false} UndoExactly(s: Store, ops: seq<Operation>)
    requires ApplyOps(s, ops).Err?
    ensures Restored(s, ops) == s <==>
            FailsAt(s, ops) <= FirstClear(ops) || ApplyOps(s, ops[..FirstClear(ops)]) == Ok(s)
  {
    if FirstClear(ops) < FailsAt(s, ops) {
      PrefixOk(s, ops, FirstClear(ops));
    }
  }

  /** A write before the `Clear` survives the undo. */
  lemma {:induction false} UndoLosesPreImages()
    ensures var ops := [Set("a", [49], 1), Clear, Set("b", [120], 1), CheckInteger("b", 1)];
            ApplyOps(map[], ops).Err? && Restored(map[], ops) == map["a" := StoredValue([49], None, 1)]
  {
    var first, second: Operation := Set("a", [49], 1), Set("b", [120], 1);
    var ops := [first, Clear, second, CheckInteger("b", 1)];
    ApplyOpsLast(map[], [], first);
    ApplyOpsLast(map[], [first], Clear);
    ApplyOpsLast(map[], [first, Clear], second);
    assert [] + [first] == ops[..1] && [first] + [Clear] == [first, Clear] && [first, Clear] + [second] == ops[..3];
    assert ApplyOps(map[], ops[..3]) == Ok(map["b" := StoredValue([120], None, 1)]);
    assert ParseI64([120]) == None;
    FailsAtUnique(map[], ops, 3);
    assert FirstClear(ops) == 1;
  }
}
