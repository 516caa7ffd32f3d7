/**
  Two copies of the keyspace that differ only by lazy purging.

  The live store drops expired keys whenever it is touched; the log fold, a snapshot being replayed or the read
  index never do.  `Lags(x, f, now)` says that `x` is the fold `f` except that some keys expired at `now` are
  already gone.  This module shows which operations keep two copies in that relation, and what a counter needs.
 */
module Lag {
  import opened Base
  import opened Numbers
  import opened Keyspace
  import opened Commands

  /** The key is still in the store although it has expired. */
  predicate Stale(s: Store, k: Key, now: u64) {
    k in s && Expired(s[k], now)
  }

  /** One key of a lagging copy: the fold's entry, or none or an expired one where the fold's has expired. */
  predicate KeyLags(v: Option<StoredValue>, g: Option<StoredValue>, now: u64) {
    v == g || (g.Some? && Expired(g.value, now) && (v.Some? ==> Expired(v.value, now)))
  }

  ghost predicate SameOrExpired(x: Store, f: Store, k: Key, now: u64) {
    KeyLags(Lookup(x, k), Lookup(f, k), now)
  }

  ghost predicate Lags(x: Store, f: Store, now: u64) {
    forall k :: SameOrExpired(x, f, k, now)
  }

  /** The entry a reader sees at `now`. */
  function LiveAt(s: Store, k: Key, now: u64): Option<StoredValue> {
    if k in s && !Expired(s[k], now) then Some(s[k]) else None
  }

  ghost predicate AgreeLive(a: Store, b: Store, now: u64) {
    forall k :: LiveAt(a, k, now) == LiveAt(b, k, now)
  }

  lemma {:induction false} LagsAgree(x: Store, f: Store, now: u64, later: u64)
    requires Lags(x, f, now) && now <= later
    ensures AgreeLive(x, f, later)
  {
    forall k ensures LiveAt(x, k, later) == LiveAt(f, k, later) {
      assert SameOrExpired(x, f, k, now);
    }
  }

  lemma {:induction false} LagsLater(x: Store, f: Store, now: u64, later: u64)
    requires Lags(x, f, now) && now <= later
    ensures Lags(x, f, later)
  {
    forall k ensures SameOrExpired(x, f, k, later) {
      assert SameOrExpired(x, f, k, now);
    }
  }

  lemma {:induction false} PurgeLags(x: Store, f: Store, now: u64, later: u64)
    requires Lags(x, f, now) && now <= later
    ensures Lags(Purge(x, later), f, later)
  {
    forall k ensures SameOrExpired(Purge(x, later), f, k, later) {
      assert SameOrExpired(x, f, k, now);
    }
  }

  // ---------------------------------------------------------------- operations

  /** Operations that read the key they change must not find a stale entry under it. */
  predicate Scoped(f: Store, op: Operation, now: u64) {
    op.Expire? || op.Persist? || op.CheckInteger? ==> !Stale(f, op.key, now)
  }

  predicate ScopedOps(f: Store, ops: seq<Operation>, now: u64)
    decreases |ops|
  {
    ops == [] || (&& Scoped(f, ops[0], now)
                  && (ApplyOp(f, ops[0]).Ok? ==> ScopedOps(ApplyOp(f, ops[0]).value, ops[1..], now)))
  }

  lemma {:induction false} OpKeepsLag(x: Store, f: Store, op: Operation, now: u64)
    requires Lags(x, f, now) && Scoped(f, op, now)
    ensures ApplyOp(x, op).Ok? <==> ApplyOp(f, op).Ok?
    ensures ApplyOp(x, op).Ok? ==> Lags(ApplyOp(x, op).value, ApplyOp(f, op).value, now)
  {
    if !op.Clear? {
      assert SameOrExpired(x, f, op.key, now);
    }
    if ApplyOp(x, op).Ok? {
      var x', f' := ApplyOp(x, op).value, ApplyOp(f, op).value;
      forall k ensures SameOrExpired(x', f', k, now) {
        assert SameOrExpired(x, f, k, now);
      }
    }
  }

  lemma {:induction false} OpsKeepLag(x: Store, f: Store, ops: seq<Operation>, now: u64)
    requires Lags(x, f, now) && ScopedOps(f, ops, now)
    ensures ApplyOps(x, ops).Ok? <==> ApplyOps(f, ops).Ok?
    ensures ApplyOps(x, ops).Ok? ==> Lags(ApplyOps(x, ops).value, ApplyOps(f, ops).value, now)
    decreases |ops|
  {
    if ops != [] {
      OpKeepsLag(x, f, ops[0], now);
      if ApplyOp(x, ops[0]).Ok? {
        OpsKeepLag(ApplyOp(x, ops[0]).value, ApplyOp(f, ops[0]).value, ops[1..], now);
      }
    }
  }

  // ---------------------------------------------------------------- what the evaluator emits

  /** Every `Expire` and `Persist` in the list finds a live key when it is applied to `w`. */
  predicate HitsLive(w: Store, ops: seq<Operation>, now: u64)
    decreases |ops|
  {
    ops == [] || (&& (ops[0].Expire? || ops[0].Persist? ==> LiveAt(w, ops[0].key, now).Some?)
                  && (ApplyOp(w, ops[0]).Ok? ==> HitsLive(ApplyOp(w, ops[0]).value, ops[1..], now)))
  }

  /** No counter in the list is applied to a key whose expired value is still in the fold. */
  predicate CountersFresh(f: Store, ops: seq<Operation>, now: u64)
    decreases |ops|
  {
    ops == [] || (&& (ops[0].CheckInteger? ==> !Stale(f, ops[0].key, now))
                  && (ApplyOp(f, ops[0]).Ok? ==> CountersFresh(ApplyOp(f, ops[0]).value, ops[1..], now)))
  }

  lemma {:induction false} HitsLiveConcat(w: Store, a: seq<Operation>, b: seq<Operation>, now: u64)
    requires ApplyOps(w, a).Ok? && HitsLive(w, a, now) && HitsLive(ApplyOps(w, a).value, b, now)
    ensures HitsLive(w, a + b, now)
    decreases |a|
  {
    if a == [] {
      assert a + b == b;
    } else {
      assert (a + b)[0] == a[0] && (a + b)[1..] == a[1..] + b;
      HitsLiveConcat(ApplyOp(w, a[0]).value, a[1..], b, now);
    }
  }

  lemma {:induction false} PlainHitsLive(w: Store, ops: seq<Operation>, now: u64)
    requires forall i :: 0 <= i < |ops| ==> !ops[i].Expire? && !ops[i].Persist?
    ensures HitsLive(w, ops, now)
    decreases |ops|
  {
    if ops != [] && ApplyOp(w, ops[0]).Ok? {
      PlainHitsLive(ApplyOp(w, ops[0]).value, ops[1..], now);
    }
  }

  lemma {:induction false} MSetPlain(s: Store, entries: seq<(Key, Bytes)>)
    ensures forall i :: 0 <= i < |EvalMSet(s, entries).1| ==> EvalMSet(s, entries).1[i].Set?
  {
    if entries != [] {
      MSetPlain(s, entries[..|entries| - 1]);
    }
  }

  /** A trailing `Expire` on a key just written, after operations that neither expire nor persist. */
  lemma {:induction false} WriteThenExpire(w: Store, ops: seq<Operation>, k: Key, at: u64, now: u64)
    requires forall i :: 0 <= i < |ops| ==> !ops[i].Expire? && !ops[i].Persist?
    requires ApplyOps(w, ops).Ok? && LiveAt(ApplyOps(w, ops).value, k, now).Some?
    ensures HitsLive(w, ops + [Expire(k, at)], now)
  {
    PlainHitsLive(w, ops, now);
    var t := ApplyOps(w, ops).value;
    assert [Expire(k, at)][1..] == [];
    HitsLiveConcat(w, ops, [Expire(k, at)], now);
  }

  lemma {:induction false} SetHitsLive(s: Store, now: u64, k: Key, v: Bytes, o: SetOptions)
    ensures HitsLive(s, EvalSet(s, now, k, v, o).ops, now)
  {
    var ops := EvalSet(s, now, k, v, o).ops;
    if |ops| == 2 && ops[1].Expire? {
      ApplyOne(s, ops[0]);
      WriteThenExpire(s, [ops[0]], k, ops[1].expiresAt, now);
      assert ops == [ops[0]] + [ops[1]];
    } else {
      PlainHitsLive(s, ops, now);
    }
  }

  lemma {:induction false} RenameHitsLive(s: Store, now: u64, source: Key, destination: Key)
    ensures HitsLive(s, EvalRename(s, source, destination).ops, now)
  {
    var ops := EvalRename(s, source, destination).ops;
    if |ops| == 3 {
      ApplyTwo(s, ops[0], ops[1]);
      WriteThenExpire(s, [ops[0], ops[1]], destination, ops[2].expiresAt, now);
      assert ops == [ops[0], ops[1]] + [ops[2]];
    } else {
      PlainHitsLive(s, ops, now);
    }
  }

  lemma {:induction false} CommandHitsLive(s: Store, now: u64, cmd: Command)
    requires Purged(s, now) && EvalPurged(s, now, cmd).Ok?
    ensures HitsLive(s, EvalPurged(s, now, cmd).value.ops, now)
  {
    var ops := EvalPurged(s, now, cmd).value.ops;
    if cmd.SetKey? {
      SetHitsLive(s, now, cmd.key, cmd.value, cmd.options);
    } else if cmd.MSet? {
      MSetPlain(s, cmd.entries);
      PlainHitsLive(s, ops, now);
    } else if cmd.DeleteKeys? {
      DeleteEmitsDeletes(s, cmd.keys);
      PlainHitsLive(s, ops, now);
    } else if cmd.Rename? || cmd.RenameNx? {
      RenameHitsLive(s, now, cmd.source, cmd.destination);
    } else if |ops| == 1 {
      assert ops[1..] == [];
    }
  }

  lemma {:induction false} QueueHitsLive(s: Store, now: u64, cmds: seq<Command>)
    requires now < U64_MAX && EvalAll(s, now, cmds).Ok?
    ensures HitsLive(Purge(s, now), EvalAll(s, now, cmds).value.ops, now)
  {
    if cmds != [] {
      var init, last := cmds[..|cmds| - 1], cmds[|cmds| - 1];
      var before := EvalAll(s, now, init).value;
      QueueHitsLive(s, now, init);
      EvaluationRefinesReplay(s, now, init);
      PurgeIdempotent(before.store, now);
      CommandHitsLive(before.store, now, last);
      HitsLiveConcat(Purge(s, now), before.ops, EvalPurged(before.store, now, last).value.ops, now);
    }
  }

  /** Operations that hit live keys in the lagging copy, with fresh counters, are scoped in the fold. */
  lemma {:induction false} EmittedScoped(w: Store, f: Store, ops: seq<Operation>, now: u64)
    requires Lags(w, f, now) && ApplyOps(w, ops).Ok? && HitsLive(w, ops, now) && CountersFresh(f, ops, now)
    ensures ScopedOps(f, ops, now)
    decreases |ops|
  {
    if ops != [] {
      if !ops[0].Clear? {
        assert SameOrExpired(w, f, ops[0].key, now);
      }
      OpKeepsLag(w, f, ops[0], now);
      EmittedScoped(ApplyOp(w, ops[0]).value, ApplyOp(f, ops[0]).value, ops[1..], now);
    }
  }

  // ---------------------------------------------------------------- expiry changes that arrive late

  /** The same entry but for its expiry. */
  predicate SameBut(v: Option<StoredValue>, e: StoredValue) {
    v.Some? && v.value.value == e.value && v.value.version == e.version
  }

  /**
    An expiry change keeps a lagging copy and the fold in step exactly when it does not revive an entry that the copy
    no longer has as the fold has it.
   */
  lemma {:induction false} LateExpiryExactly(x: Store, f: Store, k: Key, expiry: Option<u64>, now: u64)
    requires Lags(x, f, now)
    ensures var op := if expiry.Some? then Expire(k, expiry.value) else Persist(k);
            Lags(ApplyOp(x, op).value, ApplyOp(f, op).value, now)
            <==> !(k in f && (expiry.None? || expiry.value > now) && !SameBut(Lookup(x, k), f[k]))
  {
    var op := if expiry.Some? then Expire(k, expiry.value) else Persist(k);
    var x', f' := ApplyOp(x, op).value, ApplyOp(f, op).value;
    assert SameOrExpired(x, f, k, now);
    if k in f && (expiry.None? || expiry.value > now) && !SameBut(Lookup(x, k), f[k]) {
      assert !SameOrExpired(x', f', k, now);
    } else {
      forall j ensures SameOrExpired(x', f', j, now) {
        assert SameOrExpired(x, f, j, now);
      }
    }
  }

  // ---------------------------------------------------------------- counters on expired keys

  /**
    A counter command keeps the purged live store and the fold in step exactly when the fold holds no expired
    value under that key, or one that reads zero with version zero.
   */
  lemma {:induction false} CounterExactly(x: Store, f: Store, k: Key, delta: int, now: u64)
    requires Lags(x, f, now) && Purged(x, now) && EvalCounter(x, k, delta).Ok?
    ensures var op := CheckInteger(k, delta);
            (ApplyOp(f, op).Ok? && Lags(EvalCounter(x, k, delta).value.store, ApplyOp(f, op).value, now))
            <==> (!Stale(f, k, now) || (ParseI64(f[k].value) == Some(0) && f[k].version == 0))
  {
    var op := CheckInteger(k, delta);
    var x' := EvalCounter(x, k, delta).value.store;
    assert SameOrExpired(x, f, k, now);
    if !Stale(f, k, now) {
      OpKeepsLag(x, f, op, now);
    } else if ApplyOp(f, op).Ok? {
      var f' := ApplyOp(f, op).value;
      assert ParseI64(ZERO) == Some(0) by { ParseRender(0); assert RenderI64(0) == ZERO; }
      var n := CounterStep(k, Lookup(f, k), delta).value;
      ParseRender(n);
      ParseRender(delta);
      assert x'[k] == StoredValue(RenderI64(delta), None, 1);
      assert f'[k] == StoredValue(RenderI64(n), None, SatAdd(f[k].version, 1));
      if ParseI64(f[k].value) == Some(0) && f[k].version == 0 {
        forall j ensures SameOrExpired(x', f', j, now) {
          assert SameOrExpired(x, f, j, now);
        }
      } else {
        assert !SameOrExpired(x', f', k, now);
      }
    }
  }

  /** A counter whose last value, 41, expired at 1: the live store restarts it at one, the fold continues to 42. */
  lemma {:induction false} StaleCounterDiverges()
    ensures var f: Store := map["c" := StoredValue([52, 49], Some(1), 1)];
            && Lags(map[], f, 5)
            && EvalCounter(map[], "c", 1).Ok? && EvalCounter(map[], "c", 1).value.store["c"].value == [49]
            && ApplyOp(f, CheckInteger("c", 1)).Ok? && ApplyOp(f, CheckInteger("c", 1)).value["c"].value == [52, 50]
  {
    var f: Store := map["c" := StoredValue([52, 49], Some(1), 1)];
    forall k ensures SameOrExpired(map[], f, k, 5) {}
    assert ParseI64(ZERO) == Some(0) by { ParseRender(0); assert RenderI64(0) == ZERO; }
    assert RenderI64(41) == [52, 49] by { assert Digits(4) == [52]; }
    assert RenderI64(42) == [52, 50] by { assert Digits(4) == [52]; }
    ParseRender(41);
  }
}
