/**
  The committed read index: a server-side projection of the log that answers reads without the engine.
  It ignores entries it has already seen and never purges.
 */
module ReadIndex {
  import opened Base
  import opened Numbers
  import opened Keyspace
  import opened Commands
  import opened Direct
  import opened Lag
  import opened Recovery

  datatype ReadEntry = ReadEntry(value: Bytes, expiresAt: Option<u64>)

  type Index = map<Key, ReadEntry>

  function Projected(e: StoredValue): ReadEntry {
    ReadEntry(e.value, e.expiresAt)
  }

  function Project(s: Store): Index {
    map k | k in s :: Projected(s[k])
  }

  // ---------------------------------------------------------------- applying entries

  function IndexOp(ix: Index, op: Operation): Result<Index, EngineError> {
    match op
    case Set(k, v, _) => Ok(ix[k := ReadEntry(v, None)])
    case Delete(k) => Ok(ix - {k})
    case Expire(k, at) => Ok(if k in ix then ix[k := ix[k].(expiresAt := Some(at))] else ix)
    case Persist(k) => Ok(if k in ix then ix[k := ix[k].(expiresAt := None)] else ix)
    case Clear => Ok(map[])
    case CheckInteger(k, delta) =>
      var parsed := ParseI64(if k in ix then ix[k].value else ZERO);
      if parsed.None? then Err(InvalidIntegerValue(k))
      else if !InI64(parsed.value + delta) then Err(NumericOverflow(k))
      else Ok(ix[k := ReadEntry(RenderI64(parsed.value + delta), None)])
  }

  /** Projection commutes with every operation, failures included. */
  lemma {:induction false} ProjectOp(s: Store, op: Operation)
    ensures IndexOp(Project(s), op).Ok? <==> ApplyOp(s, op).Ok?
    ensures ApplyOp(s, op).Ok? ==> IndexOp(Project(s), op) == Ok(Project(ApplyOp(s, op).value))
  {
    if ApplyOp(s, op).Ok? {
      var a, b := IndexOp(Project(s), op).value, Project(ApplyOp(s, op).value);
      assert a.Keys == b.Keys;
      assert a == b;
    }
  }

  datatype IndexState = IndexState(index: Index, committed: u64, ok: bool)

  /** Operations one by one; a failing one stops the delivery and leaves what came before it applied. */
  function IndexOps(ix: Index, ops: seq<Operation>): (Index, bool)
    decreases |ops|
  {
    if ops == [] then (ix, true)
    else if IndexOp(ix, ops[0]).Err? then (ix, false)
    else IndexOps(IndexOp(ix, ops[0]).value, ops[1..])
  }

  /** A delivery of entries: those at or below the committed sequence are skipped. */
  function Deliver(ix: Index, committed: u64, delivered: seq<Entry>): IndexState
    decreases |delivered|
  {
    if delivered == [] then IndexState(ix, committed, true)
    else if delivered[0].sequence <= committed then Deliver(ix, committed, delivered[1..])
    else
      var (next, ok) := IndexOps(ix, delivered[0].operations);
      if ok then Deliver(next, delivered[0].sequence, delivered[1..]) else IndexState(next, committed, false)
  }

  class CommittedReadIndex {
    var entries: Index
    var committed: u64

    constructor ()
      ensures entries == map[] && committed == 0
    {
      entries, committed := map[], 0;
    }

    method RebuildFromEngineState(store: Store, lastApplied: u64)
      modifies this
      ensures entries == Project(store) && committed == lastApplied
    {
      var rebuilt: Index := map[];
      var todo := store.Keys;
      while todo != {}
        invariant todo <= store.Keys
        invariant rebuilt.Keys == store.Keys - todo
        invariant forall k :: k in rebuilt ==> rebuilt[k] == Projected(store[k])
        decreases todo
      {
        var k :| k in todo;
        rebuilt := rebuilt[k := ReadEntry(store[k].value, store[k].expiresAt)];
        todo := todo - {k};
      }
      assert rebuilt == Project(store);
      entries := rebuilt;
      committed := lastApplied;
    }

    method ApplyOperation(op: Operation) returns (ok: bool)
      modifies this`entries
      ensures ok == IndexOp(old(entries), op).Ok?
      ensures entries == if ok then IndexOp(old(entries), op).value else old(entries)
    {
      match op {
        case Set(key, value, _) => entries := entries[key := ReadEntry(value, None)];
        case Delete(key) => entries := entries - {key};
        case Expire(key, at) =>
          if key in entries {
            entries := entries[key := entries[key].(expiresAt := Some(at))];
          }
        case Persist(key) =>
          if key in entries {
            entries := entries[key := entries[key].(expiresAt := None)];
          }
        case Clear => entries := map[];
        case CheckInteger(key, delta) =>
          var parsed := ParseI64(if key in entries then entries[key].value else ZERO);
          if parsed.None? || !InI64(parsed.value + delta) {
            return false;
          }
          entries := entries[key := ReadEntry(RenderI64(parsed.value + delta), None)];
      }
      ok := true;
    }

    method ApplyEntries(delivered: seq<Entry>) returns (ok: bool)
      modifies this
      ensures IndexState(entries, committed, ok) == Deliver(old(entries), old(committed), delivered)
    {
      var i := 0;
      while i < |delivered|
        invariant i <= |delivered|
        invariant Deliver(entries, committed, delivered[i..]) == Deliver(old(entries), old(committed), delivered)
      {
        var entry := delivered[i];
        assert delivered[i..][0] == entry && delivered[i..][1..] == delivered[i + 1..];
        if entry.sequence > committed {
          ok := ApplyOperations(entry.operations);
          if !ok {
            return;
          }
          committed := entry.sequence;
        }
        i := i + 1;
      }
      ok := true;
    }

    method ApplyOperations(ops: seq<Operation>) returns (ok: bool)
      modifies this`entries
      ensures (entries, ok) == IndexOps(old(entries), ops)
    {
      var n := 0;
      while n < |ops|
        invariant n <= |ops| && IndexOps(entries, ops[n..]) == IndexOps(old(entries), ops)
      {
        assert ops[n..][0] == ops[n] && ops[n..][1..] == ops[n + 1..];
        ok := ApplyOperation(ops[n]);
        if !ok {
          return;
        }
        n := n + 1;
      }
      ok := true;
    }

    /** `read_command`: `None` is the refusal of any other command. */
    method ReadCommand(now: u64, cmd: Command) returns (reply: Option<Reply>)
      ensures reply == ReadReply(entries, now, cmd)
      ensures if FastPathRead(cmd) then reply.Some? && IndexMeant(entries, now, cmd, reply.value) else reply.None?
    {
      RepliesMean(entries, now, cmd);
      match cmd {
        case GetKey(key) =>
          reply := Some(if LiveIn(entries, key, now) then Value(entries[key].value) else NotFound);
        case MGet(keys) =>
          var values: seq<Option<Bytes>> := [];
          var i := 0;
          while i < |keys|
            invariant i <= |keys| && values == ReadMany(entries, now, keys[..i])
          {
            assert keys[..i + 1][..i] == keys[..i];
            values := values + [if LiveIn(entries, keys[i], now) then Some(entries[keys[i]].value) else None];
            i := i + 1;
          }
          assert keys[..i] == keys;
          reply := Some(Values(values));
        case Exists(key) => reply := Some(Boolean(LiveIn(entries, key, now)));
        case Ttl(key) =>
          if key !in entries {
            reply := Some(Integer(TTL_KEY_MISSING));
          } else {
            var at := entries[key].expiresAt;
            reply := Some(Integer(if at.Some? && at.value <= now then TTL_KEY_MISSING
                                  else if at.Some? then RemainingSeconds(SatSub(at.value, now))
                                  else TTL_NO_EXPIRY));
          }
        case _ => reply := None;
      }
    }
  }

  // ---------------------------------------------------------------- reading

  predicate LiveIn(ix: Index, k: Key, now: u64) {
    k in ix && !(ix[k].expiresAt.Some? && ix[k].expiresAt.value <= now)
  }

  function ReadMany(ix: Index, now: u64, keys: seq<Key>): seq<Option<Bytes>> {
    if keys == [] then []
    else
      var k := keys[|keys| - 1];
      ReadMany(ix, now, keys[..|keys| - 1]) + [if LiveIn(ix, k, now) then Some(ix[k].value) else None]
  }

  function ReadReply(ix: Index, now: u64, cmd: Command): Option<Reply> {
    match cmd
    case GetKey(k) => Some(if LiveIn(ix, k, now) then Value(ix[k].value) else NotFound)
    case MGet(keys) => Some(Values(ReadMany(ix, now, keys)))
    case Exists(k) => Some(Boolean(LiveIn(ix, k, now)))
    case Ttl(k) => Some(Integer(if k in ix then TtlOf(Some(StoredValue(ix[k].value, ix[k].expiresAt, 0)), now)
                                else TTL_KEY_MISSING))
    case _ => None
  }

  predicate FastPathRead(cmd: Command) {
    cmd.GetKey? || cmd.MGet? || cmd.Exists? || cmd.Ttl?
  }

  /** The index has the key, and `t` is before its deadline if it has one. */
  predicate Held(ix: Index, k: Key, t: u64) {
    k in ix && (ix[k].expiresAt.None? || t < ix[k].expiresAt.value)
  }

  /**
    What the answers say of the index: values of keys held, and for `TTL` minus two for a key that is not held, minus
    one for one without a deadline, and otherwise the remaining seconds rounded up.
   */
  ghost predicate IndexMeant(ix: Index, now: u64, cmd: Command, reply: Reply) {
    match cmd
    case GetKey(k) => reply == if Held(ix, k, now) then Value(ix[k].value) else NotFound
    case MGet(keys) =>
      reply.Values? && |reply.values| == |keys|
      && forall i :: 0 <= i < |keys| ==>
           reply.values[i] == if Held(ix, keys[i], now) then Some(ix[keys[i]].value) else None
    case Exists(k) => reply == Boolean(Held(ix, k, now))
    case Ttl(k) =>
      reply.Integer?
      && (if !Held(ix, k, now) then reply.i == -2
          else if ix[k].expiresAt.None? then reply.i == -1
          else reply.i >= 1 && 1000 * (reply.i - 1) < ix[k].expiresAt.value - now <= 1000 * reply.i)
    case _ => false
  }

  lemma {:induction false} RepliesMean(ix: Index, now: u64, cmd: Command)
    ensures var r := ReadReply(ix, now, cmd);
            if FastPathRead(cmd) then r.Some? && IndexMeant(ix, now, cmd, r.value) else r.None?
  {
    if cmd.MGet? {
      forall i | 0 <= i < |cmd.keys|
        ensures |ReadMany(ix, now, cmd.keys)| == |cmd.keys|
        ensures ReadMany(ix, now, cmd.keys)[i] ==
                if Held(ix, cmd.keys[i], now) then Some(ix[cmd.keys[i]].value) else None
      {
        ReadManyAt(ix, now, cmd.keys, i);
      }
    }
  }

  lemma {:induction false} ReadManyAt(ix: Index, now: u64, keys: seq<Key>, i: nat)
    requires i < |keys|
    ensures |ReadMany(ix, now, keys)| == |keys|
    ensures ReadMany(ix, now, keys)[i] == if LiveIn(ix, keys[i], now) then Some(ix[keys[i]].value) else None
  {
    if i < |keys| - 1 {
      ReadManyAt(ix, now, keys[..|keys| - 1], i);
    } else if |keys| > 1 {
      ReadManyAt(ix, now, keys[..|keys| - 1], 0);
    }
  }

  /** Copies that agree on live entries answer every fast-path read alike. */
  lemma {:induction false} SameAnswers(x: Store, live: Store, now: u64, cmd: Command)
    requires AgreeLive(x, live, now) && FastPathRead(cmd)
    ensures Eval(live, now, cmd).Ok? && ReadReply(Project(x), now, cmd) == Some(Eval(live, now, cmd).value.reply)
  {
    if cmd.MGet? {
      var a, b := ReadMany(Project(x), now, cmd.keys), Eval(live, now, cmd).value.reply.values;
      if cmd.keys != [] {
        ReadManyAt(Project(x), now, cmd.keys, 0);
      }
      assert |a| == |b|;
      forall i | 0 <= i < |a| ensures a[i] == b[i] {
        ReadManyAt(Project(x), now, cmd.keys, i);
        assert LiveAt(x, cmd.keys[i], now) == LiveAt(live, cmd.keys[i], now);
      }
      assert a == b;
    } else {
      assert LiveAt(x, cmd.key, now) == LiveAt(live, cmd.key, now);
    }
  }

  // ---------------------------------------------------------------- following the log

  lemma {:induction false} ProjectOps(s: Store, ops: seq<Operation>)
    requires ApplyOps(s, ops).Ok?
    ensures IndexOps(Project(s), ops) == (Project(ApplyOps(s, ops).value), true)
    decreases |ops|
  {
    if ops != [] {
      ProjectOp(s, ops[0]);
      ProjectOps(ApplyOp(s, ops[0]).value, ops[1..]);
    }
  }

  /** Entries already seen are skipped. */
  lemma {:induction false} DeliverOld(ix: Index, committed: u64, delivered: seq<Entry>, n: nat)
    requires n <= |delivered| && forall i :: 0 <= i < n ==> delivered[i].sequence <= committed
    ensures Deliver(ix, committed, delivered) == Deliver(ix, committed, delivered[n..])
    decreases n
  {
    if n == 0 {
      assert delivered[0..] == delivered;
    } else {
      DeliverOld(ix, committed, delivered[1..], n - 1);
      assert delivered[1..][n - 1..] == delivered[n..];
    }
  }

  /** New consecutive entries are replayed onto the projected store. */
  lemma {:induction false} DeliverNew(s: Store, committed: u64, delivered: seq<Entry>)
    requires committed + |delivered| <= U64_MAX
    requires forall i :: 0 <= i < |delivered| ==> delivered[i].sequence == committed + 1 + i
    requires ApplyEntries(s, delivered).Ok?
    ensures Deliver(Project(s), committed, delivered)
         == IndexState(Project(ApplyEntries(s, delivered).value), committed + |delivered|, true)
    decreases |delivered|
  {
    if delivered != [] {
      ProjectOps(s, delivered[0].operations);
      DeliverNew(ApplyOps(s, delivered[0].operations).value, committed + 1, delivered[1..]);
    }
  }

  /**
    The index holds the projection of `x`, which lags the fold of the first `n` entries; the entries still to
    come were evaluated no earlier than `since`.
   */
  ghost predicate Follows(db: Database, ix: Index, n: nat, x: Store, since: u64) {
    && ix == Project(x) && n <= |db.log| == |db.times| && |db.log| <= U64_MAX
    && Fold(db.log[..n]).Ok? && Lags(x, Fold(db.log[..n]).value, since)
    && since <= db.clock
    && (forall i :: n <= i < |db.times| ==> since <= db.times[i])
  }

  function Later(a: u64, b: u64): u64 {
    if a > b then a else b
  }

  /** An empty index, and one rebuilt from the live store, follow the log. */
  lemma {:induction false} FollowsFromStart(db: Database)
    requires Inv(db) && |db.log| <= U64_MAX
    ensures Follows(db, map[], 0, map[], 0)
    ensures Follows(db, Project(db.live), |db.log|, db.live, db.clock)
  {
    assert db.log[..0] == [] && db.log[..|db.log|] == db.log;
    assert Project(map[]) == map[];
  }

  /** Any slice of the log that leaves no gap, however much of it was delivered before, moves the index to its end. */
  lemma {:induction false} DeliveryFollows(db: Database, ix: Index, n: nat, x: Store, since: u64, a: nat, b: nat)
    returns (x': Store, since': u64)
    requires Inv(db) && Follows(db, ix, n, x, since) && a <= n && a <= b <= |db.log|
    ensures var d := Deliver(ix, n, db.log[a..b]);
            d.ok && d.committed == (if b > n then b else n) && Follows(db, d.index, d.committed, x', since')
    ensures since' == if b > n then Later(db.times[b - 1], since) else since
  {
    var slice := db.log[a..b];
    if b <= n {
      x', since' := x, since;
      DeliverOld(ix, n, slice, |slice|);
      assert slice[|slice|..] == [];
    } else {
      DeliverOld(ix, n, slice, n - a);
      var unseen := db.log[n..b];
      assert slice[n - a..] == unseen;
      var log', times' := db.log[..b], db.times[..b];
      since' := Later(db.times[b - 1], since);
      LogPrefixKept(db.log, db.times, b);
      assert log'[..n] == db.log[..n] && log'[n..] == unseen;
      TailKeepsLag(x, log', times', n, since, since');
      x' := ApplyEntries(x, unseen).value;
      DeliverNew(x, n, unseen);
    }
  }

  /**
    Whatever the engine does next, an index that followed the log still follows it as long as the log still begins
    with what the index holds and the entries to come were evaluated no earlier than it.
   */
  lemma {:induction false} EngineKeepsFollowing(db: Database, h: Happening, ix: Index, n: nat, x: Store, since: u64)
    requires Inv(db) && Possible(db, h) && Safe(db, h) && Follows(db, ix, n, x, since)
    requires |After(db, h).log| <= U64_MAX && n <= |After(db, h).log| && After(db, h).log[..n] == db.log[..n]
    requires h.Rewind? ==> forall t :: t in h.stamps ==> since <= t
    ensures Follows(After(db, h), ix, n, x, since)
  {
    hide Fold, Lags, LogKept, Recovered, EvalAll, ApplyEntries, PlanCommand, RestartHarmless;
    var next := After(db, h);
    StepInv(db, h);
    KeptLengths(next);
    forall i | n <= i < |next.times| ensures since <= next.times[i] {
      if i >= |db.times| || (h.Rewind? && i >= h.keep) {
        assert h.Follow? ==> next.times[i] == h.stamps[i - |db.times|] && next.times[i] in h.stamps;
        assert h.Rewind? ==> next.times[i] == h.stamps[i - h.keep] && next.times[i] in h.stamps;
      } else {
        assert next.times[i] == db.times[i];
      }
    }
  }

  /** An index that has caught up answers every fast-path read exactly as the engine does, at every later instant. */
  lemma {:induction false} CaughtUpReadsAgree(db: Database, ix: Index, x: Store, since: u64, now: u64, cmd: Command)
    requires Inv(db) && Follows(db, ix, |db.log|, x, since) && db.clock <= now && FastPathRead(cmd)
    ensures Eval(db.live, now, cmd).Ok? && ReadReply(ix, now, cmd) == Some(Eval(db.live, now, cmd).value.reply)
  {
    assert db.log[..|db.log|] == db.log;
    var f := Fold(db.log).value;
    LagsAgree(x, f, since, now);
    LagsAgree(db.live, f, db.clock, now);
    forall k ensures LiveAt(x, k, now) == LiveAt(db.live, k, now) {
      assert LiveAt(x, k, now) == LiveAt(f, k, now);
      assert LiveAt(db.live, k, now) == LiveAt(f, k, now);
    }
    SameAnswers(x, db.live, now, cmd);
  }
}
