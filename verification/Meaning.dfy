/**
  What each command means to a client, said on the values, deadlines and versions of keys and nothing else: which
  instants a key is live at, what it then holds, and what is answered.  `CommandMeant` says that evaluation means this.
 */
module Meaning {
  import opened Base
  import opened Numbers
  import opened Keyspace
  import opened Commands

  /** The key is there at instant `t`: it has no deadline, or `t` is before it. */
  predicate Live(s: Store, k: Key, t: u64) {
    k in s && (s[k].expiresAt.None? || t < s[k].expiresAt.value)
  }

  /** The key is as it was: the same value, deadline and version if it was live, and gone if it was not. */
  predicate Kept(s: Store, now: u64, s': Store, k: Key) {
    if Live(s, k, now) then k in s' && s'[k] == s[k] else k !in s'
  }

  ghost predicate AllKept(s: Store, now: u64, s': Store) {
    forall k :: Kept(s, now, s', k)
  }

  ghost predicate OthersKept(s: Store, now: u64, s': Store, k: Key) {
    forall j :: j != k ==> Kept(s, now, s', j)
  }

  /** From `now` on the key holds `v` until the deadline, which is cut off at the last instant there is. */
  ghost predicate LivesUntil(s': Store, now: u64, k: Key, v: Bytes, deadline: nat) {
    forall t: u64 :: now <= t ==>
      (Live(s', k, t) <==> t < deadline && t < U64_MAX) && (Live(s', k, t) ==> s'[k].value == v)
  }

  /** One more than the version of a live key, cut off at the greatest there is; one for a new key. */
  function VersionAfter(s: Store, now: u64, k: Key): u64 {
    if !Live(s, k, now) then 1 else if s[k].version < U64_MAX then s[k].version + 1 else U64_MAX
  }

  /** An expiry in milliseconds from now. */
  function Duration(e: Expiration): nat {
    match e
    case Seconds(n) => 1000 * n
    case Milliseconds(n) => n
  }

  function OldValue(s: Store, now: u64, k: Key): Reply {
    if Live(s, k, now) then Value(s[k].value) else NotFound
  }

  // ---------------------------------------------------------------- writing

  predicate SetPermitted(s: Store, now: u64, k: Key, o: SetOptions) {
    && (o.condition == Some(Nx) ==> !Live(s, k, now))
    && (o.condition == Some(Xx) ==> Live(s, k, now))
    && (o.ifVersion.Some? ==> Live(s, k, now) && s[k].version == o.ifVersion.value)
  }

  ghost predicate SetMeant(s: Store, now: u64, k: Key, v: Bytes, o: SetOptions, s': Store, reply: Reply) {
    var permitted := SetPermitted(s, now, k, o);
    && OthersKept(s, now, s', k)
    && (!permitted ==> Kept(s, now, s', k))
    && (permitted && o.expiration.Some? ==> LivesUntil(s', now, k, v, now + Duration(o.expiration.value)))
    && (permitted && o.expiration.None? ==>
          k in s' && s'[k].value == v
          && s'[k].expiresAt == if o.keepTtl && Live(s, k, now) then s[k].expiresAt else None)
    && (permitted && k in s' ==> s'[k].version == VersionAfter(s, now, k))
    && reply == if o.returnPrevious then OldValue(s, now, k)
                else if o.condition.Some? || o.ifVersion.Some? then Boolean(permitted)
                else Done
  }

  /** `GETEX`: the value is answered and stays; the deadline moves, goes or stays. */
  ghost predicate GetExMeant(s: Store, now: u64, k: Key, expiration: Option<Expiration>, persist: bool, s': Store,
                             reply: Reply)
  {
    && OthersKept(s, now, s', k) && reply == OldValue(s, now, k)
    && (!Live(s, k, now) ==> k !in s')
    && (Live(s, k, now) ==>
          && (expiration.Some? ==> LivesUntil(s', now, k, s[k].value, now + Duration(expiration.value)))
          && (expiration.None? && persist ==> k in s' && s'[k] == s[k].(expiresAt := None))
          && (expiration.None? && !persist ==> Kept(s, now, s', k))
          && (k in s' ==> s'[k].version == s[k].version))
  }

  ghost predicate ExpireMeant(s: Store, now: u64, k: Key, seconds: u64, s': Store, reply: Reply) {
    && OthersKept(s, now, s', k) && reply == Boolean(Live(s, k, now))
    && (!Live(s, k, now) ==> k !in s')
    && (Live(s, k, now) ==> LivesUntil(s', now, k, s[k].value, now + 1000 * seconds))
    && (Live(s, k, now) && k in s' ==> s'[k].version == s[k].version)
  }

  ghost predicate PersistMeant(s: Store, now: u64, k: Key, s': Store, reply: Reply) {
    && OthersKept(s, now, s', k)
    && reply == Boolean(Live(s, k, now) && s[k].expiresAt.Some?)
    && (if Live(s, k, now) then k in s' && s'[k] == s[k].(expiresAt := None) else k !in s')
  }

  /** The value and the deadline move; the destination counts one more write. */
  ghost predicate RenameMeant(s: Store, now: u64, a: Key, b: Key, s': Store, reply: Reply) {
    && reply == Boolean(Live(s, a, now))
    && (if !Live(s, a, now) then AllKept(s, now, s')
        else
          && (forall k :: k != a && k != b ==> Kept(s, now, s', k))
          && (a != b ==> a !in s')
          && b in s' && s'[b].value == s[a].value && s'[b].expiresAt == s[a].expiresAt
          && s'[b].version == if a == b then 1 else VersionAfter(s, now, b))
  }

  /** The last pair that names a key decides its value; no deadline is left on it. */
  ghost predicate MSetMeant(s: Store, now: u64, entries: seq<(Key, Bytes)>, s': Store) {
    && (forall k :: !Named(entries, k) ==> Kept(s, now, s', k))
    && (forall i :: 0 <= i < |entries| && !Named(entries[i + 1..], entries[i].0) ==>
          entries[i].0 in s' && s'[entries[i].0].value == entries[i].1 && s'[entries[i].0].expiresAt.None?)
  }

  ghost predicate Named(entries: seq<(Key, Bytes)>, k: Key) {
    exists i :: 0 <= i < |entries| && entries[i].0 == k
  }

  /** Every key named is gone, and each live one is counted once. */
  ghost predicate DeleteMeant(s: Store, now: u64, keys: seq<Key>, s': Store, reply: Reply) {
    && (forall k :: if k in keys then k !in s' else Kept(s, now, s', k))
    && reply == Count(|set k | k in keys && Live(s, k, now)|)
  }

  /** The number a counter starts from: zero for a missing key, and none for a value that is not a number. */
  function Counted(s: Store, now: u64, k: Key): Option<int> {
    if Live(s, k, now) then ParseI64(s[k].value) else Some(0)
  }

  ghost predicate CounterMeant(s: Store, now: u64, k: Key, delta: int, s': Store, r: Result<Reply, EngineError>) {
    var n := Counted(s, now, k);
    if n.None? then r == Err(InvalidIntegerValue(k)) && AllKept(s, now, s')
    else if n.value + delta < -0x8000_0000_0000_0000 || n.value + delta > 0x7FFF_FFFF_FFFF_FFFF
    then r == Err(NumericOverflow(k)) && AllKept(s, now, s')
    else
      && r == Ok(Integer(n.value + delta)) && OthersKept(s, now, s', k)
      && k in s' && ParseI64(s'[k].value) == Some(n.value + delta) && s'[k].expiresAt.None?
      && s'[k].version == VersionAfter(s, now, k)
  }

  // ---------------------------------------------------------------- reading

  /** Remaining seconds, rounded up, so that a live key is never answered zero. */
  predicate TtlMeant(s: Store, now: u64, k: Key, r: int) {
    if !Live(s, k, now) then r == -2
    else if s[k].expiresAt.None? then r == -1
    else r >= 1 && 1000 * (r - 1) < s[k].expiresAt.value - now <= 1000 * r
  }

  ghost predicate ReadMeant(s: Store, now: u64, cmd: Command, reply: Reply) {
    match cmd
    case GetKey(k) => reply == OldValue(s, now, k)
    case MGet(keys) =>
      reply.Values? && |reply.values| == |keys|
      && forall i :: 0 <= i < |keys| ==>
           reply.values[i] == if Live(s, keys[i], now) then Some(s[keys[i]].value) else None
    case Exists(k) => reply == Boolean(Live(s, k, now))
    case Ttl(k) => reply.Integer? && TtlMeant(s, now, k, reply.i)
    case DbSize => reply == Count(|set k | k in s && Live(s, k, now)|)
    case _ => false
  }

  // ---------------------------------------------------------------- every command

  ghost predicate Meant(s: Store, now: u64, cmd: Command, s': Store, r: Result<Reply, EngineError>) {
    match cmd
    case Incr(k) => CounterMeant(s, now, k, 1, s', r)
    case Decr(k) => CounterMeant(s, now, k, -1, s', r)
    case OutsideTransactions => r == Err(UnsupportedCommand) && AllKept(s, now, s')
    case _ => r.Ok? && AnswerMeant(s, now, cmd, s', r.value)
  }

  ghost predicate AnswerMeant(s: Store, now: u64, cmd: Command, s': Store, reply: Reply) {
    match cmd
    case GetDel(k) => OthersKept(s, now, s', k) && k !in s' && reply == OldValue(s, now, k)
    case GetEx(k, expiration, persist) => GetExMeant(s, now, k, expiration, persist, s', reply)
    case SetKey(k, v, o) => SetMeant(s, now, k, v, o, s', reply)
    case SetNx(k, v) =>
      && OthersKept(s, now, s', k) && reply == Boolean(!Live(s, k, now))
      && (if Live(s, k, now) then Kept(s, now, s', k) else k in s' && s'[k] == StoredValue(v, None, 1))
    case MSet(entries) => MSetMeant(s, now, entries, s') && reply == Done
    case DeleteKeys(keys) => DeleteMeant(s, now, keys, s', reply)
    case ExpireKey(k, seconds) => ExpireMeant(s, now, k, seconds, s', reply)
    case PersistKey(k) => PersistMeant(s, now, k, s', reply)
    case Rename(a, b) => RenameMeant(s, now, a, b, s', reply)
    case RenameNx(a, b) =>
      if Live(s, b, now) then AllKept(s, now, s') && reply == Boolean(false) else RenameMeant(s, now, a, b, s', reply)
    case ClearAll => s' == map[] && reply == Done
    case _ => AllKept(s, now, s') && ReadMeant(s, now, cmd, reply)
  }

  // ---------------------------------------------------------------- evaluation means this

  lemma {:induction false} SweepKeeps(s: Store, now: u64)
    ensures AllKept(s, now, Purge(s, now))
  {
  }

  lemma {:induction false} SetMeans(s: Store, now: u64, k: Key, v: Bytes, o: SetOptions)
    ensures var e := EvalSet(Purge(s, now), now, k, v, o); SetMeant(s, now, k, v, o, e.store, e.reply)
  {
  }

  lemma {:induction false} ExpiriesMean(s: Store, now: u64, cmd: Command)
    requires cmd.GetEx? || cmd.ExpireKey? || cmd.PersistKey?
    ensures var e := EvalPurged(Purge(s, now), now, cmd);
            e.Ok? && AnswerMeant(s, now, cmd, e.value.store, e.value.reply)
  {
  }

  lemma {:induction false} RenameMeans(s: Store, now: u64, a: Key, b: Key)
    ensures var e := EvalRename(Purge(s, now), a, b); RenameMeant(s, now, a, b, e.store, e.reply)
  {
  }

  lemma {:induction false} MSetMeans(s: Store, now: u64, entries: seq<(Key, Bytes)>)
    ensures MSetMeant(s, now, entries, EvalMSet(Purge(s, now), entries).0)
    decreases |entries|
  {
    if entries != [] {
      var n := |entries| - 1;
      var init := entries[..n];
      MSetMeans(s, now, init);
      forall k ensures Named(entries, k) <==> Named(init, k) || k == entries[n].0 {
        NamedLast(entries, k);
      }
      var s' := EvalMSet(Purge(s, now), entries).0;
      forall i | 0 <= i < |entries| && !Named(entries[i + 1..], entries[i].0)
        ensures entries[i].0 in s' && s'[entries[i].0].value == entries[i].1 && s'[entries[i].0].expiresAt.None?
      {
        if i < n {
          assert entries[i + 1..][n - i - 1] == entries[n];
          assert init[i + 1..] == entries[i + 1..][..n - i - 1];
          assert !Named(init[i + 1..], init[i].0);
        }
      }
    }
  }

  lemma {:induction false} NamedLast(entries: seq<(Key, Bytes)>, k: Key)
    requires entries != []
    ensures Named(entries, k) <==> Named(entries[..|entries| - 1], k) || k == entries[|entries| - 1].0
  {
    var init := entries[..|entries| - 1];
    if Named(init, k) {
      var i :| 0 <= i < |init| && init[i].0 == k;
      assert entries[i].0 == k;
    }
    if Named(entries, k) && k != entries[|entries| - 1].0 {
      var i :| 0 <= i < |entries| && entries[i].0 == k;
      assert init[i].0 == k;
    }
  }

  lemma {:induction false} DeleteMeans(p: Store, keys: seq<Key>)
    ensures EvalDelete(p, keys).0 == p - (set k | k in keys)
    ensures |EvalDelete(p, keys).1| == |set k | k in keys && k in p|
    decreases |keys|
  {
    if keys == [] {
      assert p - (set k | k in keys) == p;
    } else {
      var init, last := keys[..|keys| - 1], keys[|keys| - 1];
      DeleteMeans(p, init);
      assert keys == init + [last];
      OneMore(p, init, last);
    }
  }

  /** One more key to remove. */
  lemma {:induction false} OneMore(p: Store, init: seq<Key>, last: Key)
    ensures p - (set k | k in init + [last]) == Without(p - (set k | k in init), last)
    ensures last in p - (set k | k in init) <==> last in p && last !in init
    ensures last !in p - (set k | k in init) ==>
              Without(p - (set k | k in init), last) == p - (set k | k in init)
    ensures |set k | k in init + [last] && k in p| ==
            |set k | k in init && k in p| + if last in p && last !in init then 1 else 0
  {
    var before, after := (set k | k in init && k in p), (set k | k in init + [last] && k in p);
    assert after == before + if last in p then {last} else {};
    assert last in p && last in init ==> after == before;
  }

  lemma {:induction false} CountsMean(s: Store, now: u64, keys: seq<Key>)
    ensures var e := EvalDelete(Purge(s, now), keys); DeleteMeant(s, now, keys, e.0, Count(|e.1|))
  {
    hide EvalDelete;
    DeleteMeans(Purge(s, now), keys);
    assert (set k | k in keys && k in Purge(s, now)) == set k | k in keys && Live(s, k, now);
  }

  lemma {:induction false} CounterMeans(s: Store, now: u64, k: Key, delta: int)
    ensures var e := EvalCounter(Purge(s, now), k, delta);
            CounterMeant(s, now, k, delta, if e.Ok? then e.value.store else Purge(s, now),
                         if e.Ok? then Ok(e.value.reply) else Err(e.error))
  {
    hide ParseI64, RenderI64;
    ZeroReads();
    var n := Counted(s, now, k);
    if n.Some? && InI64(n.value + delta) {
      ParseRender(n.value + delta);
    }
  }

  lemma {:induction false} ZeroReads()
    ensures ParseI64(ZERO) == Some(0)
  {
    ParseRender(0);
    assert RenderI64(0) == ZERO;
  }

  lemma {:induction false} ReadMeans(s: Store, now: u64, cmd: Command)
    requires cmd.GetKey? || cmd.MGet? || cmd.Exists? || cmd.Ttl? || cmd.DbSize?
    ensures var e := EvalPurged(Purge(s, now), now, cmd);
            e.Ok? && e.value.store == Purge(s, now) && ReadMeant(s, now, cmd, e.value.reply)
  {
    if cmd.DbSize? {
      assert Purge(s, now).Keys == set k | k in s && Live(s, k, now);
    }
  }

  lemma {:induction false} PlainMeans(s: Store, now: u64, cmd: Command)
    requires cmd.GetDel? || cmd.SetNx? || cmd.RenameNx? || cmd.ClearAll? || cmd.OutsideTransactions?
    ensures Meant(s, now, cmd, StoreOf(s, now, cmd), ReplyOf(s, now, cmd))
  {
    hide EvalSet, EvalGetEx, EvalMSet, EvalDelete, EvalCounter, EvalExpire, EvalRename, SetMeant, GetExMeant,
         ExpireMeant, PersistMeant, RenameMeant, MSetMeant, DeleteMeant, CounterMeant, ReadMeant, TtlOf;
    if cmd.RenameNx? {
      RenameMeans(s, now, cmd.source, cmd.destination);
    }
  }

  /** The store and the answer an evaluation comes to. */
  function StoreOf(s: Store, now: u64, cmd: Command): Store {
    var e := Eval(s, now, cmd);
    if e.Ok? then e.value.store else Purge(s, now)
  }

  function ReplyOf(s: Store, now: u64, cmd: Command): Result<Reply, EngineError> {
    var e := Eval(s, now, cmd);
    if e.Ok? then Ok(e.value.reply) else Err(e.error)
  }

  /** For every store, swept or not, every instant and every command. */
  lemma {:induction false} CommandMeant(s: Store, now: u64, cmd: Command)
    ensures Meant(s, now, cmd, StoreOf(s, now, cmd), ReplyOf(s, now, cmd))
  {
    hide EvalSet, EvalGetEx, EvalMSet, EvalDelete, EvalCounter, EvalExpire, EvalRename, SetMeant, GetExMeant,
         ExpireMeant, PersistMeant, RenameMeant, MSetMeant, DeleteMeant, CounterMeant, ReadMeant, TtlOf, Purge, Live,
         Kept, OthersKept, AllKept, OldValue;
    SweepKeeps(s, now);
    match cmd
    case SetKey(k, v, o) => SetMeans(s, now, k, v, o);
    case GetEx(_, _, _) => ExpiriesMean(s, now, cmd);
    case ExpireKey(_, _) => ExpiriesMean(s, now, cmd);
    case PersistKey(_) => ExpiriesMean(s, now, cmd);
    case Rename(a, b) => RenameMeans(s, now, a, b);
    case RenameNx(_, _) => PlainMeans(s, now, cmd);
    case MSet(entries) => MSetMeans(s, now, entries);
    case DeleteKeys(keys) => CountsMean(s, now, keys);
    case Incr(k) => CounterMeans(s, now, k, 1);
    case Decr(k) => CounterMeans(s, now, k, -1);
    case GetKey(_) => ReadMeans(s, now, cmd);
    case MGet(_) => ReadMeans(s, now, cmd);
    case Exists(_) => ReadMeans(s, now, cmd);
    case Ttl(_) => ReadMeans(s, now, cmd);
    case DbSize => ReadMeans(s, now, cmd);
    case _ => PlainMeans(s, now, cmd);
  }

  // ---------------------------------------------------------------- what is logged

  /** The commands that leave no trace in the log: reads, and writes that find nothing to do. */
  ghost predicate Quiet(s: Store, now: u64, cmd: Command) {
    match cmd
    case GetDel(k) => !Live(s, k, now)
    case GetEx(k, expiration, persist) =>
      !Live(s, k, now) || (expiration.None? && !(persist && s[k].expiresAt.Some?))
    case SetKey(k, _, o) => !SetPermitted(s, now, k, o)
    case SetNx(k, _) => Live(s, k, now)
    case MSet(entries) => entries == []
    case DeleteKeys(keys) => forall k :: k in keys ==> !Live(s, k, now)
    case Incr(_) => false
    case Decr(_) => false
    case ExpireKey(k, _) => !Live(s, k, now)
    case PersistKey(k) => !(Live(s, k, now) && s[k].expiresAt.Some?)
    case Rename(a, _) => !Live(s, a, now)
    case RenameNx(a, b) => !Live(s, a, now) || Live(s, b, now)
    case ClearAll => forall k :: !Live(s, k, now)
    case _ => true
  }

  lemma {:induction false} QuietExactly(s: Store, now: u64, cmd: Command)
    requires Eval(s, now, cmd).Ok?
    ensures Eval(s, now, cmd).value.ops == [] <==> Quiet(s, now, cmd)
  {
    hide EvalMSet, EvalDelete, ParseI64, RenderI64, ResolveExpiration;
    if cmd.DeleteKeys? {
      DeleteMeans(Purge(s, now), cmd.keys);
      var live := set k | k in cmd.keys && k in Purge(s, now);
      assert |live| == 0 <==> live == {};
      assert forall k :: k in cmd.keys && Live(s, k, now) ==> k in live;
      assert forall k :: k in live ==> Live(s, k, now);
    } else if cmd.ClearAll? {
      assert Purge(s, now) == map[] <==> forall k :: k !in Purge(s, now);
      assert forall k :: Live(s, k, now) <==> k in Purge(s, now);
    }
  }

  // ---------------------------------------------------------------- a write and a later read

  /**
    A permitted `SET` with `EX n` or `PX n` at one instant, then a `GET` at a later one: the value up to the deadline,
    nothing from it on.
   */
  lemma {:induction false} SetThenGet(s: Store, now: u64, k: Key, v: Bytes, o: SetOptions, t: u64)
    requires SetPermitted(s, now, k, o) && o.expiration.Some? && now <= t
    requires now + Duration(o.expiration.value) <= U64_MAX
    ensures var deadline := match o.expiration.value case Seconds(n) => now + 1000 * n case Milliseconds(n) => now + n;
            ReplyOf(StoreOf(s, now, SetKey(k, v, o)), t, GetKey(k)) == Ok(if t < deadline then Value(v) else NotFound)
  {
    hide StoreOf, ReplyOf;
    CommandMeant(s, now, SetKey(k, v, o));
    CommandMeant(StoreOf(s, now, SetKey(k, v, o)), t, GetKey(k));
  }

  /** `EXPIRE` and a later `GET`. */
  lemma {:induction false} ExpireThenGet(s: Store, now: u64, k: Key, seconds: u64, t: u64)
    requires Live(s, k, now) && now <= t && now + 1000 * seconds <= U64_MAX
    ensures ReplyOf(StoreOf(s, now, ExpireKey(k, seconds)), t, GetKey(k)) ==
            Ok(if t < now + 1000 * seconds then Value(s[k].value) else NotFound)
  {
    hide StoreOf, ReplyOf;
    CommandMeant(s, now, ExpireKey(k, seconds));
    CommandMeant(StoreOf(s, now, ExpireKey(k, seconds)), t, GetKey(k));
  }

  /** `EXPIRE n` and a `TTL` at once: `n` seconds are left. */
  lemma {:induction false} ExpireThenTtl(s: Store, now: u64, k: Key, seconds: u64)
    requires Live(s, k, now) && seconds > 0 && now + 1000 * seconds <= U64_MAX
    ensures ReplyOf(StoreOf(s, now, ExpireKey(k, seconds)), now, Ttl(k)) == Ok(Integer(seconds))
  {
    hide ReplyOf;
    CommandMeant(StoreOf(s, now, ExpireKey(k, seconds)), now, Ttl(k));
  }
}
