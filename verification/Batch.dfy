/** A batch of independent commands: one log entry per command that changed something, one undo record for them all. */
module Batch {
  import opened Base
  import opened Numbers
  import opened Keyspace
  import opened Commands

  // ---------------------------------------------------------------- entries

  /** Consecutive entries after sequence `base`, one for each list that is not empty. */
  function Number(lists: seq<seq<Operation>>, term: u64, at: u64, base: u64): (r: seq<Entry>)
    requires base + |lists| <= U64_MAX
    ensures |r| <= |lists|
    ensures forall i :: 0 <= i < |r| ==> r[i].sequence == base + 1 + i && r[i].term == term && r[i].createdAt == at
  {
    if lists == [] then []
    else
      var before := Number(lists[..|lists| - 1], term, at, base);
      var last := lists[|lists| - 1];
      if last == [] then before else before + [Entry(base + |before| + 1, term, at, last)]
  }

  function ApplyLists(s: Store, lists: seq<seq<Operation>>): Result<Store, EngineError> {
    if lists == [] then Ok(s)
    else
      var before := ApplyLists(s, lists[..|lists| - 1]);
      if before.Err? then before else ApplyOps(before.value, lists[|lists| - 1])
  }

  lemma {:induction false} AppendedEntryReplays(s: Store, es: seq<Entry>, entry: Entry)
    requires ApplyEntries(s, es).Ok?
    ensures ApplyEntries(s, es + [entry]) == ApplyOps(ApplyEntries(s, es).value, entry.operations)
  {
    ApplyEntriesConcat(s, es, [entry]);
    assert [entry][1..] == [];
    var t := ApplyEntries(s, es).value;
    if ApplyOps(t, entry.operations).Ok? {
      assert ApplyEntries(ApplyOps(t, entry.operations).value, []) == ApplyOps(t, entry.operations);
    }
  }

  /** Numbering loses nothing: the entries replay as the lists do. */
  lemma {:induction false} NumberedReplay(s: Store, lists: seq<seq<Operation>>, term: u64, at: u64, base: u64)
    requires base + |lists| <= U64_MAX && ApplyLists(s, lists).Ok?
    ensures ApplyEntries(s, Number(lists, term, at, base)) == ApplyLists(s, lists)
  {
    if lists != [] {
      var init, last := lists[..|lists| - 1], lists[|lists| - 1];
      NumberedReplay(s, init, term, at, base);
      var es := Number(init, term, at, base);
      AppendedEntryReplays(s, es, Entry(base + |es| + 1, term, at, last));
    }
  }

  /** The operations each command of a queue emits. */
  function Emitted(s: Store, now: u64, cmds: seq<Command>): (r: seq<seq<Operation>>)
    requires EvalAll(s, now, cmds).Ok?
    ensures |r| == |cmds|
  {
    if cmds == [] then []
    else
      var init := cmds[..|cmds| - 1];
      Emitted(s, now, init) + [Eval(EvalAll(s, now, init).value.store, now, cmds[|cmds| - 1]).value.ops]
  }

  /** Replaying what each command emitted, on the purged store, gives the store the queue reached. */
  lemma {:induction false} EmittedReplay(s: Store, now: u64, cmds: seq<Command>)
    requires EvalAll(s, now, cmds).Ok? && now < U64_MAX
    ensures ApplyLists(Purge(s, now), Emitted(s, now, cmds)) == Ok(EvalAll(s, now, cmds).value.store)
  {
    if cmds != [] {
      var init := cmds[..|cmds| - 1];
      EmittedReplay(s, now, init);
      LastReplays(s, now, cmds);
      var lists := Emitted(s, now, cmds);
      assert lists[..|lists| - 1] == Emitted(s, now, init);
    }
  }

  lemma {:induction false} LastReplays(s: Store, now: u64, cmds: seq<Command>)
    requires cmds != [] && EvalAll(s, now, cmds).Ok? && now < U64_MAX
    ensures var t := EvalAll(s, now, cmds[..|cmds| - 1]).value.store;
            ApplyOps(t, Eval(t, now, cmds[|cmds| - 1]).value.ops) == Ok(EvalAll(s, now, cmds).value.store)
  {
    var init := cmds[..|cmds| - 1];
    var t := EvalAll(s, now, init).value.store;
    EvaluationRefinesReplay(s, now, init);
    PurgeIdempotent(t, now);
    CommandReplays(t, now, cmds[|cmds| - 1]);
  }

  /** The entries of a batch: one per command that changed something, numbered after `base`. */
  function BatchEntries(s: Store, now: u64, term: u64, base: u64, cmds: seq<Command>): seq<Entry>
    requires EvalAll(s, now, cmds).Ok? && base + |cmds| <= U64_MAX
  {
    Number(Emitted(s, now, cmds), term, now, base)
  }

  /** The last command adds at most one entry. */
  lemma {:induction false} BatchEntriesNext(s: Store, now: u64, term: u64, base: u64, cmds: seq<Command>)
    requires cmds != [] && EvalAll(s, now, cmds).Ok? && base + |cmds| <= U64_MAX
    ensures EvalAll(s, now, cmds[..|cmds| - 1]).Ok?
    ensures |BatchEntries(s, now, term, base, cmds[..|cmds| - 1])| < |cmds|
    ensures var init := cmds[..|cmds| - 1];
            var last := Eval(EvalAll(s, now, init).value.store, now, cmds[|cmds| - 1]);
            && last.Ok? && EvalAll(s, now, cmds).value.store == last.value.store
            && var before := BatchEntries(s, now, term, base, init);
               BatchEntries(s, now, term, base, cmds) ==
               if last.value.ops == [] then before
               else before + [Entry(base + |before| + 1, term, now, last.value.ops)]
  {
    hide Eval;
    var lists := Emitted(s, now, cmds);
    assert lists[..|lists| - 1] == Emitted(s, now, cmds[..|cmds| - 1]);
  }

  /** Replaying the batch's entries on the purged store gives the store the batch left in place. */
  lemma {:induction false} BatchReplays(s: Store, now: u64, term: u64, base: u64, cmds: seq<Command>)
    requires EvalAll(s, now, cmds).Ok? && base + |cmds| <= U64_MAX && now < U64_MAX
    ensures ApplyEntries(Purge(s, now), BatchEntries(s, now, term, base, cmds)) == Ok(EvalAll(s, now, cmds).value.store)
  {
    EmittedReplay(s, now, cmds);
    NumberedReplay(Purge(s, now), Emitted(s, now, cmds), term, now, base);
  }

  // ---------------------------------------------------------------- undo

  /** The keys whose pre-images are remembered before a command runs. */
  function Remembered(cmd: Command): seq<Key> {
    match cmd
    case SetKey(k, _, _) => [k]
    case SetNx(k, _) => [k]
    case GetDel(k) => [k]
    case GetEx(k, _, _) => [k]
    case ExpireKey(k, _) => [k]
    case PersistKey(k) => [k]
    case Incr(k) => [k]
    case Decr(k) => [k]
    case MSet(entries) => seq(|entries|, i requires 0 <= i < |entries| => entries[i].0)
    case DeleteKeys(keys) => keys
    case MGet(keys) => keys
    case Rename(a, b) => [a, b]
    case RenameNx(a, b) => [a, b]
    case _ => []
  }

  lemma {:induction false} MSetTouches(s: Store, entries: seq<(Key, Bytes)>, k: Key)
    requires forall i :: 0 <= i < |entries| ==> entries[i].0 != k
    ensures Lookup(EvalMSet(s, entries).0, k) == Lookup(s, k)
  {
    if entries != [] {
      MSetTouches(s, entries[..|entries| - 1], k);
    }
  }

  lemma {:induction false} DeleteTouches(s: Store, keys: seq<Key>, k: Key)
    requires k !in keys
    ensures Lookup(EvalDelete(s, keys).0, k) == Lookup(s, k)
  {
    if keys != [] {
      DeleteTouches(s, keys[..|keys| - 1], k);
    }
  }

  /** A command changes no key outside the remembered ones. */
  lemma {:induction false} CommandTouches(s: Store, now: u64, cmd: Command, k: Key)
    requires EvalPurged(s, now, cmd).Ok? && !cmd.ClearAll? && k !in Remembered(cmd)
    ensures Lookup(EvalPurged(s, now, cmd).value.store, k) == Lookup(s, k)
  {
    if cmd.MSet? {
      forall i | 0 <= i < |cmd.entries| ensures cmd.entries[i].0 != k {
        assert Remembered(cmd)[i] == cmd.entries[i].0;
      }
      MSetTouches(s, cmd.entries, k);
    } else if cmd.DeleteKeys? {
      DeleteTouches(s, cmd.keys, k);
    } else if cmd.Rename? || cmd.RenameNx? {
      assert Remembered(cmd)[0] == cmd.source && Remembered(cmd)[1] == cmd.destination;
    } else if |Remembered(cmd)| == 1 {
      assert Remembered(cmd)[0] != k;
    }
  }

  /** Position of the first `CLEAR`, or the length if there is none. */
  function FirstClearAll(cmds: seq<Command>): (n: nat)
    ensures n <= |cmds|
    ensures n < |cmds| ==> cmds[n].ClearAll?
    ensures forall i :: 0 <= i < n ==> !cmds[i].ClearAll?
  {
    if cmds == [] then 0
    else if cmds[0].ClearAll? then 0
    else 1 + FirstClearAll(cmds[1..])
  }

  /** Command `n` is the first of the queue that fails. */
  ghost predicate FailsFirst(s: Store, now: u64, cmds: seq<Command>, n: nat) {
    && n < |cmds| && EvalAll(s, now, cmds[..n]).Ok?
    && EvalAll(s, now, cmds[..n + 1]) == EvalAll(s, now, cmds)
  }

  lemma {:induction false} SomeFailsFirst(s: Store, now: u64, cmds: seq<Command>)
    requires EvalAll(s, now, cmds).Err?
    ensures exists n: nat :: FailsFirst(s, now, cmds, n)
  {
    hide Eval;
    var init := cmds[..|cmds| - 1];
    if EvalAll(s, now, init).Err? {
      SomeFailsFirst(s, now, init);
      var n: nat :| FailsFirst(s, now, init, n);
      assert cmds[..n] == init[..n] && cmds[..n + 1] == init[..n + 1];
      assert FailsFirst(s, now, cmds, n);
    } else {
      assert cmds[..|cmds|] == cmds;
      assert FailsFirst(s, now, cmds, |cmds| - 1);
    }
  }

  ghost function FirstError(s: Store, now: u64, cmds: seq<Command>): (n: nat)
    requires EvalAll(s, now, cmds).Err?
    ensures FailsFirst(s, now, cmds, n)
  {
    SomeFailsFirst(s, now, cmds);
    var n: nat :| FailsFirst(s, now, cmds, n);
    n
  }

  lemma {:induction false} EvalPrefix(s: Store, now: u64, cmds: seq<Command>, n: nat)
    requires n <= |cmds|
    ensures EvalAll(s, now, cmds[..n]).Err? ==> EvalAll(s, now, cmds) == EvalAll(s, now, cmds[..n])
    decreases |cmds| - n
  {
    if n == |cmds| {
      assert cmds[..n] == cmds;
    } else {
      assert cmds[..n + 1][..n] == cmds[..n];
      EvalPrefix(s, now, cmds, n + 1);
    }
  }

  lemma {:induction false} FirstErrorUnique(s: Store, now: u64, cmds: seq<Command>, n: nat)
    requires n < |cmds| && EvalAll(s, now, cmds[..n]).Ok? && EvalAll(s, now, cmds[..n + 1]).Err?
    ensures EvalAll(s, now, cmds) == EvalAll(s, now, cmds[..n + 1]) && FirstError(s, now, cmds) == n
  {
    hide EvalAll;
    EvalPrefix(s, now, cmds, n + 1);
    var m := FirstError(s, now, cmds);
    if m < n {
      assert cmds[..n][..m + 1] == cmds[..m + 1];
      EvalPrefix(s, now, cmds[..n], m + 1);
    } else if n < m {
      assert cmds[..m][..n + 1] == cmds[..n + 1];
      EvalPrefix(s, now, cmds[..m], n + 1);
    }
  }

  /**
    What a failed batch leaves behind when its first `ran` commands had been remembered: the store at the moment
    of the first `CLEAR` among them, or the purged starting store if there was none.
   */
  function BatchRestored(s: Store, now: u64, cmds: seq<Command>, ran: nat): Store
    requires ran <= |cmds|
  {
    var c := FirstClearAll(cmds);
    if c < ran && EvalAll(s, now, cmds[..c]).Ok? then EvalAll(s, now, cmds[..c]).value.store else Purge(s, now)
  }

  /**
    A failed batch is undone exactly if and only if no `CLEAR` had been reached, or the commands before the first
    one had no net effect.
   */
  lemma {:induction false} BatchUndoExactly(s: Store, now: u64, cmds: seq<Command>, ran: nat)
    requires ran <= |cmds| && (forall i :: 0 <= i < ran ==> EvalAll(s, now, cmds[..i]).Ok?)
    ensures BatchRestored(s, now, cmds, ran) == Purge(s, now) <==>
            ran <= FirstClearAll(cmds) || EvalAll(s, now, cmds[..FirstClearAll(cmds)]).value.store == Purge(s, now)
  {
  }

  /** SET then CLEAR, and the log append fails: the written key comes back although it was never logged. */
  lemma {:induction false} BatchUndoLosesPreImages()
    ensures var cmds := [SetNx("a", []), ClearAll];
            BatchRestored(map[], 0, cmds, 2) == map["a" := StoredValue([], None, 1)]
  {
    var cmds := [SetNx("a", []), ClearAll];
    assert Purge(map[], 0) == map[];
    assert cmds[..1] == [SetNx("a", [])] && cmds[..1][..0] == [];
    assert EvalAll(map[], 0, []) == Ok(Effects(map[], [], []));
    assert FirstClearAll(cmds) == 1;
  }
}
