/**
  Replaying operations a second time.

  Recovery loads a snapshot and replays every retained log entry over it, including entries the snapshot already
  contains: nothing compares an entry's sequence with the snapshot's.  Set, Delete, Expire, Persist and Clear
  survive that, key by key; a counter does not unless something resets its key later.  Below, `overlap` is the part of
  the retained log the snapshot contains and `tail` the rest.
 */
module Overlap {
  import opened Base
  import opened Numbers
  import opened Keyspace
  import opened Commands
  import opened Lag

  // ---------------------------------------------------------------- one key at a time

  predicate Resets(op: Operation, k: Key) {
    op.Clear? || ((op.Set? || op.Delete?) && op.key == k)
  }

  predicate Counts(op: Operation, k: Key) {
    op.CheckInteger? && op.key == k
  }

  /** What one operation does to one key. */
  function KeyStep(e: Option<StoredValue>, op: Operation, k: Key): Result<Option<StoredValue>, EngineError> {
    match op
    case Clear => Ok(None)
    case Set(k', v, version) => if k' == k then Ok(Some(StoredValue(v, None, version))) else Ok(e)
    case Delete(k') => if k' == k then Ok(None) else Ok(e)
    case Expire(k', at) => if k' == k && e.Some? then Ok(Some(e.value.(expiresAt := Some(at)))) else Ok(e)
    case Persist(k') => if k' == k && e.Some? then Ok(Some(e.value.(expiresAt := None))) else Ok(e)
    case CheckInteger(k', delta) =>
      if k' != k then Ok(e)
      else
        var next := CounterStep(k, e, delta);
        if next.Err? then Err(next.error) else Ok(Some(StoredValue(RenderI64(next.value), None, NextVersion(e))))
  }

  function KeyFold(e: Option<StoredValue>, ops: seq<Operation>, k: Key): Result<Option<StoredValue>, EngineError>
    decreases |ops|
  {
    if ops == [] then Ok(e)
    else
      var first := KeyStep(e, ops[0], k);
      if first.Err? then first else KeyFold(first.value, ops[1..], k)
  }

  /** A successful fold of the store is a successful fold of every key. */
  lemma {:induction false} FoldByKey(s: Store, ops: seq<Operation>, k: Key)
    requires ApplyOps(s, ops).Ok?
    ensures KeyFold(Lookup(s, k), ops, k) == Ok(Lookup(ApplyOps(s, ops).value, k))
    decreases |ops|
  {
    if ops != [] {
      assert KeyStep(Lookup(s, k), ops[0], k) == Ok(Lookup(ApplyOp(s, ops[0]).value, k));
      FoldByKey(ApplyOp(s, ops[0]).value, ops[1..], k);
    }
  }

  /** The store's fold succeeds when every key's does. */
  lemma {:induction false} FoldFromKeys(s: Store, ops: seq<Operation>)
    requires forall k :: KeyFold(Lookup(s, k), ops, k).Ok?
    ensures ApplyOps(s, ops).Ok?
    decreases |ops|
  {
    if ops != [] {
      if ops[0].CheckInteger? {
        assert KeyFold(Lookup(s, ops[0].key), ops, ops[0].key).Ok?;
      }
      var t := ApplyOp(s, ops[0]).value;
      forall k ensures KeyFold(Lookup(t, k), ops[1..], k).Ok? {
        assert KeyFold(Lookup(s, k), ops, k).Ok?;
        assert KeyStep(Lookup(s, k), ops[0], k) == Ok(Lookup(t, k));
      }
      FoldFromKeys(t, ops[1..]);
    }
  }

  ghost predicate HasReset(ops: seq<Operation>, k: Key) {
    exists i :: 0 <= i < |ops| && Resets(ops[i], k)
  }

  ghost predicate HasCounter(ops: seq<Operation>, k: Key) {
    exists i :: 0 <= i < |ops| && Counts(ops[i], k)
  }

  lemma {:induction false} HasTail(ops: seq<Operation>, k: Key)
    requires ops != []
    ensures HasReset(ops, k) <==> Resets(ops[0], k) || HasReset(ops[1..], k)
    ensures HasCounter(ops, k) <==> Counts(ops[0], k) || HasCounter(ops[1..], k)
  {
    assert ops == [ops[0]] + ops[1..];
    if HasReset(ops, k) && !Resets(ops[0], k) {
      var i :| 0 <= i < |ops| && Resets(ops[i], k);
      assert Resets(ops[1..][i - 1], k);
    }
    if HasReset(ops[1..], k) {
      var i :| 0 <= i < |ops[1..]| && Resets(ops[1..][i], k);
      assert Resets(ops[i + 1], k);
    }
    if HasCounter(ops, k) && !Counts(ops[0], k) {
      var i :| 0 <= i < |ops| && Counts(ops[i], k);
      assert Counts(ops[1..][i - 1], k);
    }
    if HasCounter(ops[1..], k) {
      var i :| 0 <= i < |ops[1..]| && Counts(ops[1..][i], k);
      assert Counts(ops[i + 1], k);
    }
  }

  /** After a reset the starting value no longer matters. */
  lemma {:induction false} ResetForgets(a: Option<StoredValue>, b: Option<StoredValue>, ops: seq<Operation>, k: Key)
    requires HasReset(ops, k) && KeyFold(a, ops, k).Ok? && KeyFold(b, ops, k).Ok?
    ensures KeyFold(a, ops, k) == KeyFold(b, ops, k)
    decreases |ops|
  {
    HasTail(ops, k);
    if !Resets(ops[0], k) {
      ResetForgets(KeyStep(a, ops[0], k).value, KeyStep(b, ops[0], k).value, ops[1..], k);
    }
  }

  /** Without resets and counters only the expiry moves, and the last mention of it wins. */
  lemma {:induction false} QuietFold(e: Option<StoredValue>, ops: seq<Operation>, k: Key)
    requires !HasReset(ops, k) && !HasCounter(ops, k)
    ensures KeyFold(e, ops, k).Ok?
    ensures e.None? ==> KeyFold(e, ops, k).value.None?
    ensures e.Some? ==> var r := KeyFold(e, ops, k).value;
              r.Some? && r.value.value == e.value.value && r.value.version == e.value.version
              && r.value.expiresAt == LastExpiry(e.value.expiresAt, ops, k)
    decreases |ops|
  {
    if ops != [] {
      HasTail(ops, k);
      QuietFold(KeyStep(e, ops[0], k).value, ops[1..], k);
    }
  }

  /** The expiry left by the `Expire` and `Persist` operations on a key. */
  function LastExpiry(at: Option<u64>, ops: seq<Operation>, k: Key): Option<u64>
    decreases |ops|
  {
    if ops == [] then at
    else if ops[0].Expire? && ops[0].key == k then LastExpiry(Some(ops[0].expiresAt), ops[1..], k)
    else if ops[0].Persist? && ops[0].key == k then LastExpiry(None, ops[1..], k)
    else LastExpiry(at, ops[1..], k)
  }

  lemma {:induction false} LastExpiryIdempotent(at: Option<u64>, ops: seq<Operation>, k: Key)
    ensures LastExpiry(LastExpiry(at, ops, k), ops, k) == LastExpiry(at, ops, k)
  {
    LastExpiryEither(at, LastExpiry(at, ops, k), ops, k);
  }

  lemma {:induction false} LastExpiryEither(a: Option<u64>, b: Option<u64>, ops: seq<Operation>, k: Key)
    ensures LastExpiry(a, ops, k) == LastExpiry(b, ops, k)
            || (LastExpiry(a, ops, k) == a && LastExpiry(b, ops, k) == b)
    decreases |ops|
  {
    if ops != [] {
      LastExpiryEither(a, b, ops[1..], k);
    }
  }

  // ---------------------------------------------------------------- when a key's replay succeeds

  /** Some counter on the key comes before any reset of it. */
  predicate CountsFirst(ops: seq<Operation>, k: Key)
    decreases |ops|
  {
    ops != [] && !Resets(ops[0], k) && (Counts(ops[0], k) || CountsFirst(ops[1..], k))
  }

  /** Counting on from `n`, no counter before the key's first reset leaves the 64-bit range. */
  predicate StaysInRange(n: int, ops: seq<Operation>, k: Key)
    decreases |ops|
  {
    ops == [] || Resets(ops[0], k)
    || (if Counts(ops[0], k) then InI64(n + ops[0].delta) && StaysInRange(n + ops[0].delta, ops[1..], k)
        else StaysInRange(n, ops[1..], k))
  }

  function NumberIn(e: Option<StoredValue>): Option<int> {
    ParseI64(if e.Some? then e.value.value else ZERO)
  }

  /** The key's value is a number from which the counters before its first reset stay in range, if there are any. */
  predicate CanCount(e: Option<StoredValue>, ops: seq<Operation>, k: Key) {
    CountsFirst(ops, k) ==> NumberIn(e).Some? && StaysInRange(NumberIn(e).value, ops, k)
  }

  lemma {:induction false} NothingToCount(n: int, ops: seq<Operation>, k: Key)
    requires !CountsFirst(ops, k)
    ensures StaysInRange(n, ops, k)
    decreases |ops|
  {
    if ops != [] && !Resets(ops[0], k) {
      NothingToCount(n, ops[1..], k);
    }
  }

  /** Operations that fold from one value fold from another exactly when that value can be counted on. */
  lemma {:induction false} KeyReplays(a: Option<StoredValue>, e: Option<StoredValue>, ops: seq<Operation>, k: Key)
    requires KeyFold(a, ops, k).Ok?
    ensures KeyFold(e, ops, k).Ok? <==> CanCount(e, ops, k)
    decreases |ops|
  {
    hide ParseI64, RenderI64;
    if ops != [] && !Resets(ops[0], k) {
      var rest := ops[1..];
      if Counts(ops[0], k) {
        if NumberIn(e).Some? && InI64(NumberIn(e).value + ops[0].delta) {
          var n := NumberIn(e).value + ops[0].delta;
          ParseRender(n);
          KeyReplays(KeyStep(a, ops[0], k).value, KeyStep(e, ops[0], k).value, rest, k);
          if !CountsFirst(rest, k) {
            NothingToCount(n, rest, k);
          }
        }
      } else {
        KeyReplays(KeyStep(a, ops[0], k).value, KeyStep(e, ops[0], k).value, rest, k);
      }
    }
  }

  /** The store's replay succeeds exactly when every key's does. */
  lemma {:induction false} StoreReplays(s: Store, x: Store, ops: seq<Operation>)
    requires ApplyOps(s, ops).Ok?
    ensures ApplyOps(x, ops).Ok? <==> forall k :: CanCount(Lookup(x, k), ops, k)
  {
    forall k ensures KeyFold(Lookup(x, k), ops, k).Ok? <==> CanCount(Lookup(x, k), ops, k) {
      FoldByKey(s, ops, k);
      KeyReplays(Lookup(s, k), Lookup(x, k), ops, k);
    }
    if ApplyOps(x, ops).Ok? {
      forall k ensures CanCount(Lookup(x, k), ops, k) {
        FoldByKey(x, ops, k);
      }
    } else if forall k :: CanCount(Lookup(x, k), ops, k) {
      FoldFromKeys(x, ops);
    }
  }

  // ---------------------------------------------------------------- what counters add up to

  function Total(ops: seq<Operation>, k: Key): int
    decreases |ops|
  {
    if ops == [] then 0 else (if Counts(ops[0], k) then ops[0].delta else 0) + Total(ops[1..], k)
  }

  function Times(ops: seq<Operation>, k: Key): nat
    decreases |ops|
  {
    if ops == [] then 0 else (if Counts(ops[0], k) then 1 else 0) + Times(ops[1..], k)
  }

  lemma {:induction false} TimesPositive(ops: seq<Operation>, k: Key)
    ensures Times(ops, k) > 0 <==> HasCounter(ops, k)
    decreases |ops|
  {
    if ops != [] {
      HasTail(ops, k);
      TimesPositive(ops[1..], k);
    }
  }

  function Raised(version: u64, n: nat): u64 {
    if version + n <= U64_MAX then version + n else U64_MAX
  }

  /** Without a reset a present key stays, its version rises with each counter and its number by their total. */
  lemma {:induction false} CountersAddUp(e: StoredValue, ops: seq<Operation>, k: Key)
    requires !HasReset(ops, k) && KeyFold(Some(e), ops, k).Ok?
    ensures var r := KeyFold(Some(e), ops, k).value;
            && r.Some? && r.value.version == Raised(e.version, Times(ops, k))
            && (Times(ops, k) == 0 ==> r.value.value == e.value)
            && (Times(ops, k) > 0 ==>
                  && ParseI64(e.value).Some? && InI64(ParseI64(e.value).value + Total(ops, k))
                  && r.value.value == RenderI64(ParseI64(e.value).value + Total(ops, k)))
    decreases |ops|
  {
    hide ParseI64, RenderI64;
    if ops != [] {
      HasTail(ops, k);
      var next := KeyStep(Some(e), ops[0], k).value.value;
      if Counts(ops[0], k) {
        ParseRender(ParseI64(e.value).value + ops[0].delta);
      }
      CountersAddUp(next, ops[1..], k);
      NoTotal(ops[1..], k);
    }
  }

  lemma {:induction false} NoTotal(ops: seq<Operation>, k: Key)
    ensures Times(ops, k) == 0 ==> Total(ops, k) == 0
    decreases |ops|
  {
    if ops != [] {
      NoTotal(ops[1..], k);
    }
  }

  // ---------------------------------------------------------------- expiries

  /** The expiry a list of counters, expiries and persists leaves does not depend on where a present key started. */
  lemma {:induction false} CounterExpiry(a: Option<StoredValue>, b: Option<StoredValue>, ops: seq<Operation>, k: Key)
    requires !HasReset(ops, k) && HasCounter(ops, k) && KeyFold(a, ops, k).Ok? && KeyFold(b, ops, k).Ok?
    ensures KeyFold(a, ops, k).value.Some? && KeyFold(b, ops, k).value.Some?
    ensures KeyFold(a, ops, k).value.value.expiresAt == KeyFold(b, ops, k).value.value.expiresAt
    decreases |ops|
  {
    HasTail(ops, k);
    if Counts(ops[0], k) {
      SameExpiryKept(KeyStep(a, ops[0], k).value.value, KeyStep(b, ops[0], k).value.value, ops[1..], k);
    } else {
      CounterExpiry(KeyStep(a, ops[0], k).value, KeyStep(b, ops[0], k).value, ops[1..], k);
    }
  }

  lemma {:induction false} SameExpiryKept(a: StoredValue, b: StoredValue, ops: seq<Operation>, k: Key)
    requires !HasReset(ops, k) && a.expiresAt == b.expiresAt
    requires KeyFold(Some(a), ops, k).Ok? && KeyFold(Some(b), ops, k).Ok?
    ensures KeyFold(Some(a), ops, k).value.Some? && KeyFold(Some(b), ops, k).value.Some?
    ensures KeyFold(Some(a), ops, k).value.value.expiresAt == KeyFold(Some(b), ops, k).value.value.expiresAt
    decreases |ops|
  {
    if ops != [] {
      HasTail(ops, k);
      SameExpiryKept(KeyStep(Some(a), ops[0], k).value.value, KeyStep(Some(b), ops[0], k).value.value, ops[1..], k);
    }
  }

  // ---------------------------------------------------------------- one key, replayed

  /** One key of an overlap replayed over a copy that lags it, if it is not counted or is also reset there. */
  lemma {:induction false} KeyOverlap(a: Option<StoredValue>, v: Option<StoredValue>, ops: seq<Operation>, k: Key,
                                      now: u64)
    requires KeyFold(a, ops, k).Ok? && KeyFold(v, ops, k).Ok?
    requires KeyLags(v, KeyFold(a, ops, k).value, now)
    requires HasCounter(ops, k) ==> HasReset(ops, k) || v != KeyFold(a, ops, k).value
    ensures KeyLags(KeyFold(v, ops, k).value, KeyFold(a, ops, k).value, now)
    ensures v == KeyFold(a, ops, k).value ==> KeyFold(v, ops, k).value == v
  {
    if HasReset(ops, k) {
      ResetForgets(a, v, ops, k);
    } else if HasCounter(ops, k) {
      CounterExpiry(a, v, ops, k);
    } else {
      QuietFold(a, ops, k);
      QuietFold(v, ops, k);
      if a.Some? && v.Some? {
        LastExpiryIdempotent(a.value.expiresAt, ops, k);
        LastExpiryEither(a.value.expiresAt, v.value.expiresAt, ops, k);
      }
    }
  }

  /** Counted in the overlap and never reset in it or after it, unless the counters cancel at the last version. */
  ghost predicate DoubleCounted(end: StoredValue, overlap: seq<Operation>, tail: seq<Operation>, k: Key) {
    && HasCounter(overlap, k) && !HasReset(overlap, k) && !HasReset(tail, k)
    && (Total(overlap, k) != 0 || end.version < U64_MAX)
  }

  /** A key counted again on top of its own count ends up different exactly when it is double counted. */
  lemma {:induction false} CountedAgain(a: Option<StoredValue>, overlap: seq<Operation>, tail: seq<Operation>, k: Key)
    requires HasCounter(overlap, k) && !HasReset(overlap, k) && !HasReset(tail, k)
    requires KeyFold(a, overlap, k).Ok?
    requires var g := KeyFold(a, overlap, k).value;
             && KeyFold(g, tail, k).Ok? && KeyFold(g, overlap, k).Ok?
             && KeyFold(KeyFold(g, overlap, k).value, tail, k).Ok?
    ensures var g := KeyFold(a, overlap, k).value;
            var end, again := KeyFold(g, tail, k).value, KeyFold(KeyFold(g, overlap, k).value, tail, k).value;
            && end.Some? && again.Some? && again.value.expiresAt == end.value.expiresAt
            && (again == end <==> !DoubleCounted(end.value, overlap, tail, k))
  {
    hide KeyFold, ParseI64, RenderI64, Total, Times, HasCounter, HasReset, Raised;
    var g := KeyFold(a, overlap, k).value;
    CounterExpiry(a, g, overlap, k);
    var h := KeyFold(g, overlap, k).value;
    SameExpiryKept(g.value, h.value, tail, k);
    CountedIsNumber(a, overlap, k);
    TimesPositive(overlap, k);
    NoTotal(tail, k);
    CountersAddUp(g.value, overlap, k);
    CountersAddUp(g.value, tail, k);
    CountersAddUp(h.value, tail, k);
    var n := ParseI64(g.value.value).value;
    ParseRender(n + Total(overlap, k));
    var end, again := KeyFold(g, tail, k).value.value, KeyFold(h, tail, k).value.value;
    assert end.value == RenderI64(n + Total(tail, k));
    assert again.value == RenderI64(n + Total(overlap, k) + Total(tail, k));
    RenderApart(n + Total(tail, k), n + Total(overlap, k) + Total(tail, k));
    RaisedApart(g.value.version, Times(overlap, k), Times(tail, k));
  }

  lemma {:induction false} RenderApart(a: int, b: int)
    requires InI64(a) && InI64(b)
    ensures RenderI64(a) == RenderI64(b) <==> a == b
  {
    ParseRender(a);
    ParseRender(b);
  }

  lemma {:induction false} RaisedApart(version: u64, m: nat, n: nat)
    requires m > 0
    ensures Raised(Raised(version, m), n) == Raised(version, n) <==> Raised(version, n) == U64_MAX
  {
  }

  /** A counted key holds a canonical number. */
  lemma {:induction false} CountedIsNumber(a: Option<StoredValue>, ops: seq<Operation>, k: Key)
    requires HasCounter(ops, k) && !HasReset(ops, k) && KeyFold(a, ops, k).Ok?
    ensures var g := KeyFold(a, ops, k).value;
            && g.Some? && ParseI64(g.value.value).Some? && InI64(ParseI64(g.value.value).value)
            && g.value.value == RenderI64(ParseI64(g.value.value).value)
    decreases |ops|
  {
    HasTail(ops, k);
    var next := KeyStep(a, ops[0], k).value;
    if Counts(ops[0], k) {
      var n := CounterStep(k, a, ops[0].delta).value;
      ParseRender(n);
      CountersAddUp(next.value, ops[1..], k);
      if Times(ops[1..], k) > 0 {
        ParseRender(n + Total(ops[1..], k));
      }
    } else {
      CountedIsNumber(next, ops[1..], k);
    }
  }

  /** No operation on the key comes before its first reset. */
  predicate Untouched(ops: seq<Operation>, k: Key)
    decreases |ops|
  {
    ops == [] || Resets(ops[0], k) || (Target(ops[0]) != Some(k) && Untouched(ops[1..], k))
  }

  lemma {:induction false} UntouchedFold(e: Option<StoredValue>, ops: seq<Operation>, k: Key)
    requires Untouched(ops, k) && !HasReset(ops, k)
    ensures KeyFold(e, ops, k) == Ok(e)
    decreases |ops|
  {
    if ops != [] {
      HasTail(ops, k);
      UntouchedFold(e, ops[1..], k);
    }
  }

  lemma {:induction false} KeyFoldConcat(e: Option<StoredValue>, a: seq<Operation>, b: seq<Operation>, k: Key)
    ensures KeyFold(e, a + b, k) ==
            if KeyFold(e, a, k).Err? then KeyFold(e, a, k) else KeyFold(KeyFold(e, a, k).value, b, k)
    decreases |a|
  {
    if a == [] {
      assert a + b == b;
    } else {
      assert (a + b)[0] == a[0] && (a + b)[1..] == a[1..] + b;
      if KeyStep(e, a[0], k).Ok? {
        KeyFoldConcat(KeyStep(e, a[0], k).value, a[1..], b, k);
      }
    }
  }

  /** The key shows at `now` what the log says, or the log says it has expired. */
  ghost predicate Harmed(end: Option<StoredValue>, overlap: seq<Operation>, tail: seq<Operation>, k: Key, now: u64) {
    end.Some? && !Expired(end.value, now) && DoubleCounted(end.value, overlap, tail, k)
  }

  /** A replay that succeeds on a key is harmless there exactly when the key is not left double counted and alive. */
  lemma {:induction false} KeyExactly(a: Option<StoredValue>, v: Option<StoredValue>, overlap: seq<Operation>,
                                      tail: seq<Operation>, k: Key, since: u64, now: u64)
    requires since <= now && KeyFold(a, overlap, k).Ok? && KeyLags(v, KeyFold(a, overlap, k).value, since)
    requires KeyFold(KeyFold(a, overlap, k).value, tail, k).Ok? && KeyFold(v, overlap + tail, k).Ok?
    requires v != KeyFold(a, overlap, k).value ==> Untouched(tail, k)
    ensures var end, again := KeyFold(KeyFold(a, overlap, k).value, tail, k).value, KeyFold(v, overlap + tail, k).value;
            && (KeyLags(again, end, now) <==> !Harmed(end, overlap, tail, k, now))
            && (Harmed(end, overlap, tail, k, now) ==> again != end && again.Some? && !Expired(again.value, now))
  {
    var g := KeyFold(a, overlap, k).value;
    KeyFoldConcat(v, overlap, tail, k);
    var h := KeyFold(v, overlap, k).value;
    if HasReset(tail, k) {
      ResetForgets(g, h, tail, k);
    } else if v == g && HasCounter(overlap, k) && !HasReset(overlap, k) {
      CountedAgain(a, overlap, tail, k);
    } else {
      KeyOverlap(a, v, overlap, k, since);
      if v != g {
        UntouchedFold(g, tail, k);
        UntouchedFold(h, tail, k);
      }
    }
  }

  // ---------------------------------------------------------------- a whole store, replayed

  /** What one key needs for a replay to succeed and be harmless, in terms of the copy and the log. */
  ghost predicate KeyHarmless(x: Store, f: Store, overlap: seq<Operation>, tail: seq<Operation>, k: Key, now: u64) {
    CanCount(Lookup(x, k), overlap + tail, k) && !Harmed(Lookup(f, k), overlap, tail, k, now)
  }

  /** Entries the copy no longer has as the log has them are not touched by the tail before they are reset. */
  ghost predicate TailSpares(x: Store, f: Store, tail: seq<Operation>) {
    forall k :: Lookup(x, k) != Lookup(f, k) ==> Untouched(tail, k)
  }

  /**
    Exactly when replaying an overlap and a tail over a copy that already contains the overlap succeeds and shows
    what the log says: every key's value can be counted on up to its next reset, and no key that is alive in the end
    was counted in the overlap without being reset in it or after it.
   */
  lemma {:induction false} OverlapExactly(s: Store, x: Store, overlap: seq<Operation>, tail: seq<Operation>, since: u64,
                                          now: u64)
    requires ApplyOps(s, overlap).Ok? && ApplyOps(s, overlap + tail).Ok? && since <= now
    requires Lags(x, ApplyOps(s, overlap).value, since) && TailSpares(x, ApplyOps(s, overlap).value, tail)
    ensures var f, y := ApplyOps(s, overlap + tail).value, ApplyOps(x, overlap + tail);
            && ((forall k :: KeyHarmless(x, f, overlap, tail, k, now)) <==> y.Ok? && AgreeLive(y.value, f, now))
            && ((forall k :: KeyHarmless(x, f, overlap, tail, k, now)) ==> Lags(y.value, f, now))
  {
    var ops, f, y := overlap + tail, ApplyOps(s, overlap + tail).value, ApplyOps(x, overlap + tail);
    StoreReplays(s, x, ops);
    if y.Ok? {
      forall k
        ensures SameOrExpired(y.value, f, k, now) <==> !Harmed(Lookup(f, k), overlap, tail, k, now)
        ensures Harmed(Lookup(f, k), overlap, tail, k, now) ==> LiveAt(y.value, k, now) != LiveAt(f, k, now)
      {
        StoreKey(s, x, overlap, tail, k, since, now);
      }
      forall k ensures CanCount(Lookup(x, k), ops, k) {}
      if forall k :: KeyHarmless(x, f, overlap, tail, k, now) {
        forall k ensures SameOrExpired(y.value, f, k, now) {
          assert KeyHarmless(x, f, overlap, tail, k, now);
        }
        LagsAgree(y.value, f, now, now);
      } else {
        var k :| !KeyHarmless(x, f, overlap, tail, k, now);
        assert LiveAt(y.value, k, now) != LiveAt(f, k, now);
      }
    } else {
      var k :| !CanCount(Lookup(x, k), ops, k);
      assert !KeyHarmless(x, f, overlap, tail, k, now);
    }
  }

  /** One key of the store-level statement. */
  lemma {:induction false} StoreKey(s: Store, x: Store, overlap: seq<Operation>, tail: seq<Operation>, k: Key,
                                    since: u64, now: u64)
    requires ApplyOps(s, overlap).Ok? && ApplyOps(s, overlap + tail).Ok? && ApplyOps(x, overlap + tail).Ok?
    requires since <= now
    requires Lags(x, ApplyOps(s, overlap).value, since) && TailSpares(x, ApplyOps(s, overlap).value, tail)
    ensures var f, y := ApplyOps(s, overlap + tail).value, ApplyOps(x, overlap + tail).value;
            && (SameOrExpired(y, f, k, now) <==> !Harmed(Lookup(f, k), overlap, tail, k, now))
            && (Harmed(Lookup(f, k), overlap, tail, k, now) ==> LiveAt(y, k, now) != LiveAt(f, k, now))
  {
    assert SameOrExpired(x, ApplyOps(s, overlap).value, k, since);
    FoldByKey(s, overlap, k);
    FoldByKey(s, overlap + tail, k);
    FoldByKey(x, overlap + tail, k);
    KeyFoldConcat(Lookup(s, k), overlap, tail, k);
    KeyExactly(Lookup(s, k), Lookup(x, k), overlap, tail, k, since, now);
  }

  // ---------------------------------------------------------------- guarded counters never fail

  /** Every counter on `k` comes after a reset of `k`; `seen` says one already happened. */
  predicate GuardedKey(ops: seq<Operation>, k: Key, seen: bool)
    decreases |ops|
  {
    ops == [] || ((Counts(ops[0], k) ==> seen) && GuardedKey(ops[1..], k, seen || Resets(ops[0], k)))
  }

  ghost predicate Guarded(ops: seq<Operation>) {
    forall k :: GuardedKey(ops, k, false)
  }

  /** Replaying a guarded list cannot fail where the first run succeeded. */
  lemma {:induction false} GuardedReplays(a: Option<StoredValue>, b: Option<StoredValue>, ops: seq<Operation>, k: Key,
                                          seen: bool)
    requires GuardedKey(ops, k, seen) && KeyFold(a, ops, k).Ok? && (seen ==> a == b)
    ensures KeyFold(b, ops, k).Ok?
    decreases |ops|
  {
    if ops != [] {
      GuardedReplays(KeyStep(a, ops[0], k).value, KeyStep(b, ops[0], k).value, ops[1..], k, seen || Resets(ops[0], k));
    }
  }

  lemma {:induction false} GuardedHasReset(ops: seq<Operation>, k: Key)
    requires GuardedKey(ops, k, false) && HasCounter(ops, k)
    ensures HasReset(ops, k)
    decreases |ops|
  {
    HasTail(ops, k);
    if !Resets(ops[0], k) {
      GuardedHasReset(ops[1..], k);
    }
  }

  /** A list whose every counter comes after a reset of its key replays, and harmlessly. */
  lemma {:induction false} GuardedOverlap(s: Store, x: Store, ops: seq<Operation>, now: u64)
    requires ApplyOps(s, ops).Ok? && Lags(x, ApplyOps(s, ops).value, now) && Guarded(ops)
    ensures ApplyOps(x, ops).Ok? && Lags(ApplyOps(x, ops).value, ApplyOps(s, ops).value, now)
  {
    forall k ensures KeyFold(Lookup(x, k), ops, k).Ok? {
      assert GuardedKey(ops, k, false);
      FoldByKey(s, ops, k);
      GuardedReplays(Lookup(s, k), Lookup(x, k), ops, k, false);
    }
    FoldFromKeys(x, ops);
    var f, y := ApplyOps(s, ops).value, ApplyOps(x, ops).value;
    forall k ensures SameOrExpired(y, f, k, now) {
      assert SameOrExpired(x, f, k, now);
      assert GuardedKey(ops, k, false);
      FoldByKey(s, ops, k);
      FoldByKey(x, ops, k);
      if HasCounter(ops, k) {
        GuardedHasReset(ops, k);
      }
      KeyOverlap(Lookup(s, k), Lookup(x, k), ops, k, now);
    }
  }

  /** An unguarded counter can also make the replay fail outright: the key was overwritten with text afterwards. */
  lemma {:induction false} UnguardedReplayFails()
    ensures var ops := [CheckInteger("c", 1), Set("c", [120], 2)];
            ApplyOps(map[], ops).Ok? && ApplyOps(ApplyOps(map[], ops).value, ops).Err?
  {
    var ops := [CheckInteger("c", 1), Set("c", [120], 2)];
    assert ParseI64(ZERO) == Some(0) by { ParseRender(0); assert RenderI64(0) == ZERO; }
    ApplyTwo(map[], ops[0], ops[1]);
    var t := ApplyOps(map[], ops).value;
    assert t["c"].value == [120];
    assert ParseI64([120]) == None;
  }
}
