/**
  The second interpreter.  A command that is not batched is executed by a method of its own, which plans a list of
  operations, appends them as one log entry and applies that entry.  On a purged store it must do what the batch
  evaluator does.
 */
module Direct {
  import opened Base
  import opened Numbers
  import opened Keyspace
  import opened Commands

  /** The entry to append, if any, and the rendered answer. */
  datatype Plan = Plan(entry: Option<seq<Operation>>, reply: Reply)

  function CountPresent(s: Store, keys: seq<Key>): nat {
    if keys == [] then 0
    else CountPresent(s, keys[..|keys| - 1]) + (if keys[|keys| - 1] in s then 1 else 0)
  }

  function DeleteAll(keys: seq<Key>): seq<Operation> {
    seq(|keys|, i requires 0 <= i < |keys| => Delete(keys[i]))
  }

  function PlanSet(s: Store, now: u64, k: Key, v: Bytes, o: SetOptions): (bool, Option<seq<Operation>>) {
    var previous := Lookup(s, k);
    if !SetAllowed(previous, o) then (false, None)
    else
      var write := Set(k, v, NextVersion(previous));
      if o.expiration.Some? then
        var at := ResolveExpiration(now, o.expiration.value);
        (true, Some([write, if at <= now then Delete(k) else Expire(k, at)]))
      else if o.keepTtl && previous.Some? && previous.value.expiresAt.Some? then
        (true, Some([write, Expire(k, previous.value.expiresAt.value)]))
      else (true, Some([write]))
  }

  function PlanGetEx(s: Store, now: u64, k: Key, expiration: Option<Expiration>, persist: bool)
    : Option<seq<Operation>>
  {
    if k !in s then None
    else if expiration.Some? then
      var at := ResolveExpiration(now, expiration.value);
      Some([if at <= now then Delete(k) else Expire(k, at)])
    else if persist && s[k].expiresAt.Some? then Some([Persist(k)])
    else None
  }

  function PlanRename(s: Store, source: Key, destination: Key): Option<seq<Operation>> {
    if source !in s then None
    else
      var moved := s[source];
      var ops := [Delete(source), Set(destination, moved.value, NextVersion(Lookup(s, destination)))];
      Some(if moved.expiresAt.Some? then ops + [Expire(destination, moved.expiresAt.value)] else ops)
  }

  function PlanCounter(s: Store, k: Key, delta: int): Result<Plan, EngineError> {
    var next := CounterStep(k, Lookup(s, k), delta);
    if next.Err? then Err(next.error) else Ok(Plan(Some([CheckInteger(k, delta)]), Integer(next.value)))
  }

  const SET_NX: SetOptions := SetOptions(Some(Nx), None, None, false, false)

  /** What each direct method plans on the store it sees. */
  function PlanCommand(s: Store, now: u64, cmd: Command): Result<Plan, EngineError> {
    match cmd
    case GetDel(k) =>
      Ok(Plan(if k in s then Some([Delete(k)]) else None, ValueOrNotFound(ValueOf(Lookup(s, k)))))
    case GetEx(k, expiration, persist) =>
      Ok(Plan(PlanGetEx(s, now, k, expiration, persist), ValueOrNotFound(ValueOf(Lookup(s, k)))))
    case SetKey(k, v, o) =>
      var (applied, entry) := PlanSet(s, now, k, v, o);
      Ok(Plan(entry, SetReply(Lookup(s, k), o, applied)))
    case SetNx(k, v) =>
      var (applied, entry) := PlanSet(s, now, k, v, SET_NX);
      Ok(Plan(entry, Boolean(applied)))
    case MSet(entries) => Ok(Plan(Some(EvalMSet(s, entries).1), Done))
    case DeleteKeys(keys) =>
      var removed := CountPresent(s, keys);
      Ok(Plan(if removed == 0 then None else Some(DeleteAll(keys)), Count(removed)))
    case Incr(k) => PlanCounter(s, k, 1)
    case Decr(k) => PlanCounter(s, k, -1)
    case ExpireKey(k, seconds) =>
      if k !in s then Ok(Plan(None, Boolean(false)))
      else if seconds == 0 then Ok(Plan(Some([Delete(k)]), Boolean(true)))
      else Ok(Plan(Some([Expire(k, SatAdd(now, SatMul(seconds, 1000)))]), Boolean(true)))
    case PersistKey(k) =>
      if k !in s || s[k].expiresAt.None? then Ok(Plan(None, Boolean(false)))
      else Ok(Plan(Some([Persist(k)]), Boolean(true)))
    case Rename(a, b) => Ok(Plan(PlanRename(s, a, b), Boolean(a in s)))
    case RenameNx(a, b) =>
      if b in s then Ok(Plan(None, Boolean(false))) else Ok(Plan(PlanRename(s, a, b), Boolean(a in s)))
    case ClearAll => Ok(Plan(if s == map[] then None else Some([Clear]), Done))
    case OutsideTransactions => Err(UnsupportedCommand)
    case _ => EvalRead(s, now, cmd)
  }

  function EvalRead(s: Store, now: u64, cmd: Command): Result<Plan, EngineError> {
    var e := EvalPurged(s, now, cmd);
    if e.Err? then Err(e.error) else Ok(Plan(None, e.value.reply))
  }

  /** The commands that change data and exist on both paths. */
  predicate IsWrite(cmd: Command) {
    cmd.GetDel? || cmd.GetEx? || cmd.SetKey? || cmd.SetNx? || cmd.MSet? || cmd.DeleteKeys? || cmd.Incr? || cmd.Decr?
    || cmd.ExpireKey? || cmd.PersistKey? || cmd.Rename? || cmd.RenameNx? || cmd.ClearAll?
  }

  /** `MSET` plans its versions from a map of pending versions instead of from a changing store. */
  method MSetOperations(s: Store, entries: seq<(Key, Bytes)>) returns (ops: seq<Operation>)
    ensures ops == EvalMSet(s, entries).1
  {
    ops := [];
    var pending: map<Key, u64> := map[];
    var i := 0;
    while i < |entries|
      invariant i <= |entries| && ops == EvalMSet(s, entries[..i]).1
      invariant forall k :: k in pending ==>
                  k in EvalMSet(s, entries[..i]).0 && pending[k] == SatAdd(EvalMSet(s, entries[..i]).0[k].version, 1)
      invariant forall k :: k !in pending ==> Lookup(EvalMSet(s, entries[..i]).0, k) == Lookup(s, k)
    {
      var (k, v) := entries[i];
      assert entries[..i + 1][..i] == entries[..i];
      var version := if k in pending then pending[k] else NextVersion(Lookup(s, k));
      pending := pending[k := SatAdd(version, 1)];
      ops := ops + [Set(k, v, version)];
      i := i + 1;
    }
    assert entries[..i] == entries;
  }

  // ---------------------------------------------------------------- deleting repeated keys

  /** Some key that is present is named twice. */
  ghost predicate RepeatsPresent(s: Store, keys: seq<Key>) {
    exists i, j :: 0 <= i < j < |keys| && keys[i] == keys[j] && keys[i] in s
  }

  lemma {:induction false} DeletedStore(s: Store, keys: seq<Key>)
    ensures EvalDelete(s, keys).0 == s - (set k | k in keys)
    ensures ApplyOps(s, DeleteAll(keys)) == Ok(s - (set k | k in keys))
  {
    if keys == [] {
      assert s - (set k | k in keys) == s;
    } else {
      var init, last := keys[..|keys| - 1], keys[|keys| - 1];
      DeletedStore(s, init);
      assert keys == init + [last];
      assert s - (set k | k in keys) == (s - (set k | k in init)) - {last};
      assert DeleteAll(keys) == DeleteAll(init) + [Delete(last)];
      ApplyOpsLast(s, DeleteAll(init), Delete(last));
      if last !in EvalDelete(s, init).0 {
        assert (s - (set k | k in init)) - {last} == s - (set k | k in init);
      }
    }
  }

  /** The direct count exceeds the batch count exactly when a present key is named twice. */
  lemma {:induction false} DeleteCounts(s: Store, keys: seq<Key>)
    ensures CountPresent(s, keys) >= |EvalDelete(s, keys).1|
    ensures CountPresent(s, keys) == |EvalDelete(s, keys).1| <==> !RepeatsPresent(s, keys)
    ensures CountPresent(s, keys) == 0 <==> EvalDelete(s, keys).1 == []
    ensures CountPresent(s, keys) == 0 ==> EvalDelete(s, keys).0 == s
  {
    if keys != [] {
      var init, last := keys[..|keys| - 1], keys[|keys| - 1];
      DeleteCounts(s, init);
      DeletedStore(s, init);
      assert keys == init + [last];
      if RepeatsPresent(s, keys) {
        var i, j :| 0 <= i < j < |keys| && keys[i] == keys[j] && keys[i] in s;
        if j < |init| {
          assert init[i] == init[j];
        } else {
          assert init[i] == last;
        }
      }
      if RepeatsPresent(s, init) {
        var i, j :| 0 <= i < j < |init| && init[i] == init[j] && init[i] in s;
        assert keys[i] == keys[j];
      }
      if last in init && last in s {
        var i :| 0 <= i < |init| && init[i] == last;
        assert keys[i] == keys[|init|];
      }
    }
  }

  // ---------------------------------------------------------------- the two interpreters

  /** The store after appending and applying the plan. */
  function PlannedStore(s: Store, plan: Plan): Result<Store, EngineError> {
    if plan.entry.None? then Ok(s) else ApplyOps(s, plan.entry.value)
  }

  /** The direct path ends with the batch path's store and answer. */
  ghost predicate SameOutcome(s: Store, now: u64, cmd: Command)
    requires PlanCommand(s, now, cmd).Ok? && EvalPurged(s, now, cmd).Ok?
  {
    var plan, effect := PlanCommand(s, now, cmd).value, EvalPurged(s, now, cmd).value;
    PlannedStore(s, plan) == Ok(effect.store) && plan.reply == effect.reply
  }

  /** The two inputs on which they part. */
  ghost predicate Parts(s: Store, cmd: Command) {
    || (cmd.DeleteKeys? && RepeatsPresent(s, cmd.keys))
    || (cmd.Rename? && cmd.source == cmd.destination && cmd.source in s && s[cmd.source].version != 0)
  }

  lemma {:induction false} RenameApart(s: Store, now: u64, cmd: Command)
    requires cmd.Rename? || cmd.RenameNx?
    ensures PlanCommand(s, now, cmd).Ok? && (SameOutcome(s, now, cmd) <==> !Parts(s, cmd))
  {
    var a, b := cmd.source, cmd.destination;
    if a in s && !(cmd.RenameNx? && b in s) {
      var moved := s[a];
      RenameReplays(s, a, b);
      var write := Set(b, moved.value, NextVersion(Lookup(s, b)));
      ApplyTwo(s, Delete(a), write);
      if moved.expiresAt.Some? {
        ApplyThree(s, Delete(a), write, Expire(b, moved.expiresAt.value));
        var expire := Expire(b, moved.expiresAt.value);
        assert [Delete(a), write] + [expire] == [Delete(a), write, expire];
      }
      if a != b {
        assert Lookup(Without(s, a), b) == Lookup(s, b);
      } else {
        var direct, batch := PlannedStore(s, PlanCommand(s, now, cmd).value).value, EvalRename(s, a, b).store;
        assert direct[b].version == SatAdd(moved.version, 1) && batch[b].version == 1;
        if moved.version == 0 {
          assert direct == batch;
        }
      }
    }
  }

  lemma {:induction false} SetSame(s: Store, now: u64, k: Key, v: Bytes, o: SetOptions)
    ensures var (applied, entry) := PlanSet(s, now, k, v, o);
            var e := EvalSet(s, now, k, v, o);
            && applied == SetAllowed(Lookup(s, k), o)
            && entry == (if e.ops == [] then None else Some(e.ops))
  {
  }

  /**
    On every store and every write command, the direct method and the batch evaluator fail alike with the same
    error, or agree on the final store and the answer exactly unless a present key is deleted twice in one command
    or a key with a non-zero version is renamed onto itself; and they append alike except for an empty `MSET`.
   */
  lemma {:induction false} TwoInterpreters(s: Store, now: u64, cmd: Command)
    requires IsWrite(cmd)
    ensures PlanCommand(s, now, cmd).Err? <==> EvalPurged(s, now, cmd).Err?
    ensures PlanCommand(s, now, cmd).Err? ==> PlanCommand(s, now, cmd).error == EvalPurged(s, now, cmd).error
    ensures PlanCommand(s, now, cmd).Ok? ==> (SameOutcome(s, now, cmd) <==> !Parts(s, cmd))
    ensures PlanCommand(s, now, cmd).Ok? && cmd != MSet([]) ==>
              (PlanCommand(s, now, cmd).value.entry.Some? <==> EvalPurged(s, now, cmd).value.ops != [])
  {
    hide ParseI64, RenderI64, EvalMSet, EvalDelete;
    if cmd.Rename? || cmd.RenameNx? {
      RenameApart(s, now, cmd);
    } else if cmd.DeleteKeys? {
      DeleteCounts(s, cmd.keys);
      DeletedStore(s, cmd.keys);
    } else if cmd.SetKey? {
      SetSame(s, now, cmd.key, cmd.value, cmd.options);
      SetReplays(s, now, cmd.key, cmd.value, cmd.options);
    } else if cmd.SetNx? {
      SetSame(s, now, cmd.key, cmd.value, SET_NX);
      SetReplays(s, now, cmd.key, cmd.value, SET_NX);
    } else if cmd.MSet? {
      MSetReplays(s, cmd.entries);
    } else if EvalPurged(s, now, cmd).Ok? {
      ApplyAtMostOne(s, EvalPurged(s, now, cmd).value.ops);
    }
  }

  /** The direct `DELETE` counts every place that names a present key. */
  lemma {:induction false} PlacesCounted(s: Store, keys: seq<Key>)
    ensures CountPresent(s, keys) == |set i | 0 <= i < |keys| && keys[i] in s|
  {
    var places := set i | 0 <= i < |keys| && keys[i] in s;
    if keys == [] {
      assert places == {};
    } else {
      var n := |keys| - 1;
      var before := set i | 0 <= i < |keys[..n]| && keys[..n][i] in s;
      PlacesCounted(s, keys[..n]);
      assert places == before + if keys[n] in s then {n} else {};
    }
  }

  /**
    Where the two part, the direct method does this: `DELETE` removes the same keys and answers how many of the names
    given were present; `RENAME k k` keeps the entry and counts one more write, where the evaluator starts again at
    one.
   */
  lemma {:induction false} PartedExactly(s: Store, now: u64, cmd: Command)
    requires Parts(s, cmd)
    ensures PlanCommand(s, now, cmd).Ok?
    ensures var plan := PlanCommand(s, now, cmd).value;
            if cmd.DeleteKeys? then
              && plan.reply == Count(|set i | 0 <= i < |cmd.keys| && cmd.keys[i] in s|)
              && PlannedStore(s, plan) == Ok(s - (set k | k in cmd.keys))
            else
              var k := cmd.source;
              && plan.reply == Boolean(true)
              && PlannedStore(s, plan) ==
                 Ok(s[k := s[k].(version := if s[k].version < U64_MAX then s[k].version + 1 else U64_MAX)])
  {
    if cmd.DeleteKeys? {
      PlacesCounted(s, cmd.keys);
      DeletedStore(s, cmd.keys);
      DeleteCounts(s, cmd.keys);
      var i, j :| 0 <= i < j < |cmd.keys| && cmd.keys[i] == cmd.keys[j] && cmd.keys[i] in s;
      assert i in set i | 0 <= i < |cmd.keys| && cmd.keys[i] in s;
    } else {
      var k := cmd.source;
      var moved := s[k];
      var write := Set(k, moved.value, NextVersion(Lookup(s, k)));
      ApplyTwo(s, Delete(k), write);
      if moved.expiresAt.Some? {
        var expire := Expire(k, moved.expiresAt.value);
        ApplyThree(s, Delete(k), write, expire);
        assert [Delete(k), write] + [expire] == [Delete(k), write, expire];
      }
      assert PlannedStore(s, PlanCommand(s, now, cmd).value).value ==
             s[k := s[k].(version := NextVersion(Lookup(s, k)))];
    }
  }

  /** Every direct plan replays. */
  lemma {:induction false} PlanNeverFails(s: Store, now: u64, cmd: Command)
    requires IsWrite(cmd) && PlanCommand(s, now, cmd).Ok? && PlanCommand(s, now, cmd).value.entry.Some?
    ensures ApplyOps(s, PlanCommand(s, now, cmd).value.entry.value).Ok?
  {
    TwoInterpreters(s, now, cmd);
    if cmd.DeleteKeys? {
      DeletedStore(s, cmd.keys);
    } else if cmd.Rename? {
      RenamePlanReplays(s, cmd.source, cmd.destination);
    }
  }

  lemma {:induction false} RenamePlanReplays(s: Store, a: Key, b: Key)
    requires a in s
    ensures ApplyOps(s, PlanRename(s, a, b).value).Ok?
  {
    var moved := s[a];
    var write := Set(b, moved.value, NextVersion(Lookup(s, b)));
    ApplyTwo(s, Delete(a), write);
    if moved.expiresAt.Some? {
      ApplyThree(s, Delete(a), write, Expire(b, moved.expiresAt.value));
      var expire := Expire(b, moved.expiresAt.value);
      assert [Delete(a), write] + [expire] == [Delete(a), write, expire];
    }
  }

  // ---------------------------------------------------------------- the two methods that do not purge

  /** The store a direct method plans on: `MSET` and `CLEAR` do not sweep first. */
  function SeenDirectly(s: Store, now: u64, cmd: Command): Store {
    if cmd.MSet? || cmd.ClearAll? then s else Purge(s, now)
  }

  /** The entry a direct method logs, if any. */
  function DirectEntry(s: Store, now: u64, cmd: Command): Option<seq<Operation>> {
    var plan := PlanCommand(SeenDirectly(s, now, cmd), now, cmd);
    if plan.Ok? then plan.value.entry else None
  }

  function DirectOperations(s: Store, now: u64, cmd: Command): seq<Operation> {
    if DirectEntry(s, now, cmd).Some? then DirectEntry(s, now, cmd).value else []
  }

  /** Expired entries that are still in the store and change what these two plan. */
  ghost predicate SeesExpired(s: Store, now: u64, cmd: Command) {
    || (cmd.ClearAll? && s != map[] && Purge(s, now) == map[])
    || (cmd.MSet? && exists i :: 0 <= i < |cmd.entries| && ExpiredVersion(s, now, cmd.entries[i].0))
  }

  predicate ExpiredVersion(s: Store, now: u64, k: Key) {
    k in s && Expired(s[k], now) && s[k].version != 0
  }

  lemma {:induction false} VersionsDiffer(s: Store, now: u64, k: Key)
    ensures NextVersion(Lookup(s, k)) != NextVersion(Lookup(Purge(s, now), k)) <==> ExpiredVersion(s, now, k)
  {
  }

  ghost predicate NamedIn(entries: seq<(Key, Bytes)>, k: Key) {
    exists i :: 0 <= i < |entries| && entries[i].0 == k
  }

  /** Two starting stores that give every named key the same next version give the same operations. */
  lemma {:induction false} MSetAgree(s: Store, p: Store, entries: seq<(Key, Bytes)>)
    requires forall i :: 0 <= i < |entries| ==>
               NextVersion(Lookup(s, entries[i].0)) == NextVersion(Lookup(p, entries[i].0))
    ensures EvalMSet(s, entries).1 == EvalMSet(p, entries).1
    ensures forall k ::
              if NamedIn(entries, k) then Lookup(EvalMSet(s, entries).0, k) == Lookup(EvalMSet(p, entries).0, k)
              else
                && Lookup(EvalMSet(s, entries).0, k) == Lookup(s, k)
                && Lookup(EvalMSet(p, entries).0, k) == Lookup(p, k)
  {
    if entries != [] {
      var n := |entries| - 1;
      var init := entries[..n];
      MSetAgree(s, p, init);
      forall k ensures NamedIn(entries, k) <==> NamedIn(init, k) || k == entries[n].0 {
        if NamedIn(init, k) {
          var i :| 0 <= i < n && init[i].0 == k;
          assert entries[i].0 == k;
        }
        if NamedIn(entries, k) && k != entries[n].0 {
          var i :| 0 <= i < |entries| && entries[i].0 == k;
          assert init[i].0 == k;
        }
      }
    }
  }

  lemma {:induction false} MSetPrefix(s: Store, entries: seq<(Key, Bytes)>, n: nat)
    requires n <= |entries|
    ensures EvalMSet(s, entries[..n]).1 <= EvalMSet(s, entries).1 && |EvalMSet(s, entries).1| == |entries|
    decreases |entries|
  {
    if n < |entries| {
      assert entries[..|entries| - 1][..n] == entries[..n];
      MSetPrefix(s, entries[..|entries| - 1], n);
    } else {
      assert entries[..n] == entries;
      if entries != [] {
        MSetPrefix(s, entries[..|entries| - 1], |entries| - 1);
      }
    }
  }

  /** The first key whose two next versions differ is written with different versions. */
  lemma {:induction false} MSetDiffer(s: Store, p: Store, entries: seq<(Key, Bytes)>, n: nat)
    requires n < |entries| && NextVersion(Lookup(s, entries[n].0)) != NextVersion(Lookup(p, entries[n].0))
    requires forall i :: 0 <= i < n ==> NextVersion(Lookup(s, entries[i].0)) == NextVersion(Lookup(p, entries[i].0))
    ensures EvalMSet(s, entries).1 != EvalMSet(p, entries).1
  {
    MSetAgree(s, p, entries[..n]);
    assert !NamedIn(entries[..n], entries[n].0);
    assert entries[..n + 1][..n] == entries[..n];
    MSetPrefix(s, entries, n + 1);
    MSetPrefix(p, entries, n + 1);
    assert EvalMSet(s, entries).1[n] == EvalMSet(s, entries[..n + 1]).1[n];
    assert EvalMSet(p, entries).1[n] == EvalMSet(p, entries[..n + 1]).1[n];
  }

  function FirstExpired(s: Store, now: u64, entries: seq<(Key, Bytes)>): (n: nat)
    ensures n <= |entries| && (n < |entries| ==> ExpiredVersion(s, now, entries[n].0))
    ensures forall i :: 0 <= i < n ==> !ExpiredVersion(s, now, entries[i].0)
  {
    if entries == [] || ExpiredVersion(s, now, entries[0].0) then 0 else 1 + FirstExpired(s, now, entries[1..])
  }

  /**
    Planned on the store as it is, `MSET` and `CLEAR` log what the evaluator, which purges first, would log exactly
    when no expired entry they see changes a version or makes an empty store look full.
   */
  lemma {:induction false} UnpurgedExactly(s: Store, now: u64, cmd: Command)
    requires cmd.MSet? || cmd.ClearAll?
    ensures DirectOperations(s, now, cmd) == EvalPurged(Purge(s, now), now, cmd).value.ops
       <==> !SeesExpired(s, now, cmd)
  {
    if cmd.MSet? {
      var p, n := Purge(s, now), FirstExpired(s, now, cmd.entries);
      forall i | 0 <= i < |cmd.entries|
        ensures NextVersion(Lookup(s, cmd.entries[i].0)) != NextVersion(Lookup(p, cmd.entries[i].0))
           <==> ExpiredVersion(s, now, cmd.entries[i].0)
      {
        VersionsDiffer(s, now, cmd.entries[i].0);
      }
      if n < |cmd.entries| {
        MSetDiffer(s, p, cmd.entries, n);
      } else {
        MSetAgree(s, p, cmd.entries);
      }
    }
  }
}
