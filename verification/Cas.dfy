/**
  Compare-and-set over whole runs: while a key stays present, every write raises its version by exactly one and
  nothing else moves it, so one version number admits one `SET ... IF VERSION`.
 */
module Cas {
  import opened Base
  import opened Numbers
  import opened Keyspace
  import opened Commands

  // ---------------------------------------------------------------- versions along a list of operations

  predicate Writes(op: Operation, k: Key) {
    (op.Set? || op.CheckInteger?) && op.key == k
  }

  function CountWrites(ops: seq<Operation>, k: Key): nat
    decreases |ops|
  {
    if ops == [] then 0 else (if Writes(ops[0], k) then 1 else 0) + CountWrites(ops[1..], k)
  }

  /** The key is there before the list and after each of its operations. */
  predicate PresentThroughout(w: Store, ops: seq<Operation>, k: Key)
    decreases |ops|
  {
    k in w && (ops == [] || (ApplyOp(w, ops[0]).Ok? && PresentThroughout(ApplyOp(w, ops[0]).value, ops[1..], k)))
  }

  /** Every `Set` carries the successor of the version it finds. */
  predicate Successive(w: Store, ops: seq<Operation>)
    decreases |ops|
  {
    ops == [] || (&& (ops[0].Set? ==> ops[0].version == NextVersion(Lookup(w, ops[0].key)))
                  && (ApplyOp(w, ops[0]).Ok? ==> Successive(ApplyOp(w, ops[0]).value, ops[1..])))
  }

  function SaturatingSum(version: u64, n: nat): u64 {
    if version + n <= U64_MAX then version + n else U64_MAX
  }

  /** While the key stays present its version counts its writes. */
  lemma {:induction false} VersionCountsWrites(w: Store, ops: seq<Operation>, k: Key)
    requires PresentThroughout(w, ops, k) && Successive(w, ops)
    ensures ApplyOps(w, ops).Ok? && k in ApplyOps(w, ops).value
    ensures ApplyOps(w, ops).value[k].version == SaturatingSum(w[k].version, CountWrites(ops, k))
    decreases |ops|
  {
    if ops != [] {
      VersionCountsWrites(ApplyOp(w, ops[0]).value, ops[1..], k);
    }
  }

  lemma {:induction false} SuccessiveConcat(w: Store, a: seq<Operation>, b: seq<Operation>)
    requires ApplyOps(w, a).Ok? && Successive(w, a) && Successive(ApplyOps(w, a).value, b)
    ensures Successive(w, a + b)
    decreases |a|
  {
    if a == [] {
      assert a + b == b;
    } else {
      assert (a + b)[0] == a[0] && (a + b)[1..] == a[1..] + b;
      SuccessiveConcat(ApplyOp(w, a[0]).value, a[1..], b);
    }
  }

  lemma {:induction false} MSetSuccessive(s: Store, entries: seq<(Key, Bytes)>)
    ensures Successive(s, EvalMSet(s, entries).1)
  {
    if entries != [] {
      var init, last := entries[..|entries| - 1], entries[|entries| - 1];
      var (t, ops) := EvalMSet(s, init);
      MSetSuccessive(s, init);
      MSetReplays(s, init);
      var op := Set(last.0, last.1, NextVersion(Lookup(t, last.0)));
      assert [op][1..] == [];
      SuccessiveConcat(s, ops, [op]);
    }
  }

  lemma {:induction false} PlainSuccessive(w: Store, ops: seq<Operation>)
    requires forall i :: 0 <= i < |ops| ==> !ops[i].Set?
    ensures Successive(w, ops)
    decreases |ops|
  {
    if ops != [] && ApplyOp(w, ops[0]).Ok? {
      PlainSuccessive(ApplyOp(w, ops[0]).value, ops[1..]);
    }
  }

  lemma {:induction false} RenameSuccessive(s: Store, a: Key, b: Key)
    requires a in s
    ensures Successive(s, EvalRename(s, a, b).ops)
  {
    var ops := EvalRename(s, a, b).ops;
    var rest := Without(s, a);
    PlainSuccessive(ApplyOp(rest, ops[1]).value, ops[2..]);
    assert ops[1..][1..] == ops[2..];
  }

  /** Whatever a command writes, it writes with successive versions. */
  lemma {:induction false} CommandSuccessive(s: Store, now: u64, cmd: Command)
    requires EvalPurged(s, now, cmd).Ok?
    ensures Successive(s, EvalPurged(s, now, cmd).value.ops)
  {
    hide SatMul, ParseI64, RenderI64, EvalMSet, EvalDelete, SetAllowed;
    var ops := EvalPurged(s, now, cmd).value.ops;
    if cmd.MSet? {
      MSetSuccessive(s, cmd.entries);
    } else if cmd.DeleteKeys? {
      DeleteEmitsDeletes(s, cmd.keys);
      PlainSuccessive(s, ops);
    } else if (cmd.Rename? || cmd.RenameNx?) && ops != [] {
      RenameSuccessive(s, cmd.source, cmd.destination);
    } else if (cmd.SetKey? || cmd.SetNx?) && ops != [] {
      PlainSuccessive(ApplyOp(s, ops[0]).value, ops[1..]);
    } else {
      PlainSuccessive(s, ops);
    }
  }

  // ---------------------------------------------------------------- runs

  /** One command at one clock reading. */
  datatype Turn = Turn(now: u64, cmd: Command)

  function StoreAfter(s: Store, turn: Turn): Store {
    var r := Eval(s, turn.now, turn.cmd);
    if r.Ok? then r.value.store else Purge(s, turn.now)
  }

  /** The store the turn's command sees. */
  function SeenAt(s: Store, turns: seq<Turn>, i: nat): Store
    requires i < |turns|
    decreases i
  {
    Purge(StoreBefore(s, turns, i), turns[i].now)
  }

  function StoreBefore(s: Store, turns: seq<Turn>, i: nat): Store
    requires i <= |turns|
  {
    if i == 0 then s else StoreAfter(StoreBefore(s, turns, i - 1), turns[i - 1])
  }

  /** The key is seen by turn `i` and never missing while turn `i` runs. */
  ghost predicate KeptBy(s: Store, turns: seq<Turn>, i: nat, k: Key)
    requires i < |turns|
  {
    var w := SeenAt(s, turns, i);
    var r := EvalPurged(w, turns[i].now, turns[i].cmd);
    k in w && (r.Ok? ==> PresentThroughout(w, r.value.ops, k))
  }

  /** The key stays present from turn `i` until turn `j` sees it. */
  ghost predicate Continuous(s: Store, turns: seq<Turn>, i: nat, j: nat, k: Key)
    requires i <= j < |turns|
  {
    (forall m :: i <= m < j ==> KeptBy(s, turns, m, k)) && k in SeenAt(s, turns, j)
  }

  /** How often turn `i` writes the key. */
  ghost function WritesOf(s: Store, turns: seq<Turn>, i: nat, k: Key): nat
    requires i < |turns|
  {
    var r := EvalPurged(SeenAt(s, turns, i), turns[i].now, turns[i].cmd);
    if r.Ok? then CountWrites(r.value.ops, k) else 0
  }

  ghost function WritesBetween(s: Store, turns: seq<Turn>, i: nat, j: nat, k: Key): nat
    requires i <= j <= |turns|
    decreases j - i
  {
    if i == j then 0 else WritesBetween(s, turns, i, j - 1, k) + WritesOf(s, turns, j - 1, k)
  }

  lemma {:induction false} TurnVersion(s: Store, turns: seq<Turn>, i: nat, k: Key)
    requires i < |turns| && KeptBy(s, turns, i, k)
    ensures k in StoreAfter(StoreBefore(s, turns, i), turns[i])
    ensures StoreAfter(StoreBefore(s, turns, i), turns[i])[k].version
         == SaturatingSum(SeenAt(s, turns, i)[k].version, WritesOf(s, turns, i, k))
  {
    var w, turn := SeenAt(s, turns, i), turns[i];
    var r := EvalPurged(w, turn.now, turn.cmd);
    if r.Ok? {
      CommandSuccessive(w, turn.now, turn.cmd);
      CommandReplays(w, turn.now, turn.cmd);
      VersionCountsWrites(w, r.value.ops, k);
    }
  }

  /** Along any run, the version of a continuously present key is its old version plus its writes since. */
  lemma {:induction false} VersionOverRun(s: Store, turns: seq<Turn>, i: nat, j: nat, k: Key)
    requires i <= j < |turns| && Continuous(s, turns, i, j, k)
    ensures k in SeenAt(s, turns, i)
    ensures SeenAt(s, turns, j)[k].version
         == SaturatingSum(SeenAt(s, turns, i)[k].version, WritesBetween(s, turns, i, j, k))
    decreases j - i
  {
    if i < j {
      assert KeptBy(s, turns, j - 1, k);
      VersionOverRun(s, turns, i, j - 1, k);
      TurnVersion(s, turns, j - 1, k);
    }
  }

  /** A `SET` of the key conditional on version `n` that took effect at turn `i`. */
  ghost predicate CasSucceeds(s: Store, turns: seq<Turn>, i: nat, k: Key, n: u64)
    requires i < |turns|
  {
    var cmd := turns[i].cmd;
    cmd.SetKey? && cmd.key == k && cmd.options.ifVersion == Some(n)
    && SetAllowed(Lookup(SeenAt(s, turns, i), k), cmd.options)
  }

  /** A `SET` of the key conditional on version `n`, whether or not it takes effect. */
  ghost predicate CasAt(turns: seq<Turn>, i: nat, k: Key, n: u64)
    requires i < |turns|
  {
    var cmd := turns[i].cmd;
    cmd.SetKey? && cmd.key == k && cmd.options.ifVersion == Some(n)
  }

  /**
    After a write conditional on a version, and as long as the key lives, another one conditional on the same version
    succeeds exactly when that version is the last there is and it does not ask for the key to be missing.
   */
  lemma {:induction false} RepeatedCasExactly(s: Store, turns: seq<Turn>, i: nat, j: nat, k: Key, n: u64)
    requires i < j < |turns| && CasSucceeds(s, turns, i, k, n) && CasAt(turns, j, k, n)
    requires Continuous(s, turns, i, j, k)
    ensures CasSucceeds(s, turns, j, k, n) <==> n == U64_MAX && turns[j].cmd.options.condition != Some(Nx)
  {
    WritesStartAt(s, turns, i, j, k);
    assert WritesOf(s, turns, i, k) >= 1;
    VersionOverRun(s, turns, i, j, k);
  }

  /** Of all writes conditional on one version below the saturation point, at most one succeeds while the key lives. */
  lemma {:induction false} AtMostOneCas(s: Store, turns: seq<Turn>, i: nat, j: nat, k: Key, n: u64)
    requires i < j < |turns| && n < U64_MAX
    requires CasSucceeds(s, turns, i, k, n) && CasSucceeds(s, turns, j, k, n)
    ensures !Continuous(s, turns, i, j, k)
  {
    if Continuous(s, turns, i, j, k) {
      RepeatedCasExactly(s, turns, i, j, k, n);
    }
  }

  lemma {:induction false} WritesStartAt(s: Store, turns: seq<Turn>, i: nat, j: nat, k: Key)
    requires i < j <= |turns|
    ensures WritesBetween(s, turns, i, j, k) >= WritesOf(s, turns, i, k)
    decreases j - i
  {
    if i + 1 < j {
      WritesStartAt(s, turns, i, j - 1, k);
    } else {
      assert WritesBetween(s, turns, i, i, k) == 0;
    }
  }

  // ---------------------------------------------------------------- both conditions are needed

  const IF_ONE: SetOptions := SetOptions(None, Some(1), None, false, false)
  const IF_LAST: SetOptions := SetOptions(None, Some(U64_MAX), None, false, false)
  const PLAIN: SetOptions := SetOptions(None, None, None, false, false)

  /** Deleting and recreating the key restarts its versions: the same condition succeeds twice. */
  lemma {:induction false} CasAfterRecreation()
    ensures var s: Store := map["k" := StoredValue([], None, 1)];
            var turns := [Turn(0, SetKey("k", [], IF_ONE)), Turn(0, DeleteKeys(["k"])), Turn(0, SetKey("k", [], PLAIN)),
                          Turn(0, SetKey("k", [], IF_ONE))];
            CasSucceeds(s, turns, 0, "k", 1) && CasSucceeds(s, turns, 3, "k", 1)
  {
    var s: Store := map["k" := StoredValue([], None, 1)];
    var s1: Store := map["k" := StoredValue([], None, 2)];
    var turns := [Turn(0, SetKey("k", [], IF_ONE)), Turn(0, DeleteKeys(["k"])), Turn(0, SetKey("k", [], PLAIN)),
                  Turn(0, SetKey("k", [], IF_ONE))];
    assert Purge(s, 0) == s && Purge(s1, 0) == s1;
    assert StoreBefore(s, turns, 1) == s1;
    assert ["k"][..0] == [];
    assert EvalDelete(s1, ["k"][..0]) == (s1, []);
    assert Without(s1, "k") == map[];
    assert StoreBefore(s, turns, 2) == map[];
    assert Purge(map[], 0) == map[];
    assert StoreBefore(s, turns, 3) == s;
  }

  /** At the saturated version a conditional write leaves the version where it was. */
  lemma {:induction false} CasAtSaturation()
    ensures var s: Store := map["k" := StoredValue([], None, U64_MAX)];
            var turns := [Turn(0, SetKey("k", [], IF_LAST)), Turn(0, SetKey("k", [], IF_LAST))];
            CasSucceeds(s, turns, 0, "k", U64_MAX) && CasSucceeds(s, turns, 1, "k", U64_MAX)
            && Continuous(s, turns, 0, 1, "k")
  {
    var s: Store := map["k" := StoredValue([], None, U64_MAX)];
    var turns := [Turn(0, SetKey("k", [], IF_LAST)), Turn(0, SetKey("k", [], IF_LAST))];
    assert Purge(s, 0) == s;
    assert StoreBefore(s, turns, 1) == s;
    var ops := EvalPurged(s, 0, turns[0].cmd).value.ops;
    assert ops == [Set("k", [], U64_MAX)] && ops[1..] == [];
    assert KeptBy(s, turns, 0, "k");
  }
}
