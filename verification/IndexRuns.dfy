/**
  Whole runs of a server that answers reads from its index: the engine moves on, the index is advanced by pages of the
  retained log, and it is rebuilt from the live store at startup and after a snapshot is installed.  Nothing else ever
  takes an entry back out of it.
 */
module IndexRuns {
  import opened Base
  import opened Numbers
  import opened Keyspace
  import opened Commands
  import opened Lag
  import opened Overlap
  import opened Recovery
  import opened ReadIndex
  import opened LogCache
  import opened EngineRuns
  import E = Engine

  /**
    `committed` is the index's own sequence number and `seen` the entries it was built from; the entries still to come
    must have been evaluated no earlier than `since`.
   */
  datatype Server = Server(db: Database, index: Index, committed: nat, seen: seq<Entry>, since: u64)

  datatype Event =
    | Engine(happening: Happening)
    | Advance(limit: nat)
    | Rebuild

  ghost const START: Server := Server(EMPTY, map[], 0, [], 0)

  function Least(a: nat, b: nat): nat {
    if a < b then a else b
  }

  /** Where the page after the index's sequence starts, and ends: the log is only there from `retained` on. */
  ghost function PageFrom(v: Server): nat {
    if v.db.retained > v.committed then v.db.retained else v.committed
  }

  ghost function PageTo(v: Server, limit: nat): nat {
    if limit == 0 then |v.db.log| else Least(PageFrom(v) + limit, |v.db.log|)
  }

  /** The page that `wal_entries_since` finds; a limit of zero is none. */
  ghost function Page(v: Server, limit: nat): seq<Entry> {
    if PageFrom(v) < PageTo(v, limit) then v.db.log[PageFrom(v)..PageTo(v, limit)] else []
  }

  ghost function Delivered(v: Server, limit: nat): IndexState
    requires v.committed <= U64_MAX
  {
    Deliver(v.index, v.committed, Page(v, limit))
  }

  /** The engine's slice is the page. */
  lemma {:induction false} PageIsSlice(v: Server, limit: nat)
    requires v.db.retained <= |v.db.log| <= U64_MAX && Continues(v.db.log, 0) && v.committed <= U64_MAX
    ensures Slice(v.db.log[v.db.retained..], v.committed, limit, None) == Page(v, limit)
  {
    hide Continues, UpTo;
    var r, log := v.db.retained, v.db.log;
    UpToIndex(log, r, v.committed);
    CachePage(log, r, UpTo(log[r..], v.committed), limit);
    assert log[|log|..|log|] == [];
  }

  /** How far into the retained entries a sequence reaches. */
  lemma {:induction false} UpToIndex(log: seq<Entry>, r: nat, s: u64)
    requires Continues(log, 0) && r <= |log| <= U64_MAX
    ensures UpTo(log[r..], s) == if s <= r then 0 else Least(s, |log|) - r
  {
    hide Continues;
    if r < |log| {
      FirstSequence(log, r);
      assert log[r..][0] == log[r];
    }
  }

  lemma {:induction false} FirstSequence(log: seq<Entry>, r: nat)
    requires Continues(log, 0) && r < |log| <= U64_MAX
    ensures log[r].sequence == r + 1
  {
    assert log[r].sequence == SequenceAfter(0 + r);
  }

  lemma {:induction false} CachePage(log: seq<Entry>, r: nat, lo: nat, limit: nat)
    requires r + lo <= |log|
    ensures var asked := log[r..][lo..];
            (if 0 < limit < |asked| then asked[..limit] else asked) ==
            log[r + lo..if limit == 0 then |log| else Least(r + lo + limit, |log|)]
  {
    assert log[r..][lo..] == log[r + lo..];
  }

  /** One round of the loop that advances the index. */
  method AdvanceOnce(engine: E.Engine, index: CommittedReadIndex, limit: nat, ghost v: Server) returns (ok: bool)
    requires engine.Valid() && Shows(engine, v.db) && index.entries == v.index && index.committed == v.committed
    modifies index
    ensures ok == Delivered(v, limit).ok
    ensures ok ==> index.entries == Next(v, Advance(limit)).index
    ensures ok ==> index.committed == Next(v, Advance(limit)).committed
  {
    hide Continues, CacheKept, Deliver;
    var page := engine.EntriesSince(index.committed, limit, None);
    PageIsSlice(v, limit);
    ok := index.ApplyEntries(page.value);
  }

  ghost predicate Can(v: Server, e: Event) {
    match e
    case Engine(h) => Possible(v.db, h) && |Recovery.After(v.db, h).log| <= U64_MAX
    case Advance(limit) =>
      v.committed <= U64_MAX && |v.db.log| == |v.db.times| && Delivered(v, limit).ok
    case Rebuild => true
  }

  ghost function Next(v: Server, e: Event): Server
    requires Can(v, e)
  {
    match e
    case Engine(h) => v.(db := Recovery.After(v.db, h))
    case Advance(limit) =>
      var page, d := Page(v, limit), Delivered(v, limit);
      v.(index := d.index, committed := d.committed, seen := v.seen + page,
         since := if page == [] then v.since else Later(v.db.times[PageTo(v, limit) - 1], v.since))
    case Rebuild => Server(v.db, Project(v.db.live), |v.db.log|, v.db.log, v.db.clock)
  }

  /** The index was built from exactly the entries its sequence number stands for. */
  ghost predicate Honest(v: Server) {
    v.committed <= |v.db.log| && v.seen == v.db.log[..v.committed]
  }

  /**
    What the server does not check: the page starts right after the index, and a replaced suffix sends again whatever
    the index already holds.
   */
  ghost predicate Steady(v: Server, e: Event) {
    match e
    case Engine(h) =>
      h.Rewind? && v.committed <= |v.db.log| && h.keep <= |v.db.log| ==>
        v.db.log[..v.committed] <= v.db.log[..h.keep] + h.entries
    case Advance(limit) => Page(v, limit) == [] || v.db.retained <= v.committed
    case Rebuild => true
  }

  /** An entry brought by a replaced suffix was evaluated no earlier than what the index holds. */
  ghost predicate InTime(v: Server, e: Event) {
    e.Engine? && e.happening.Rewind? ==> forall t :: t in e.happening.stamps ==> v.since <= t
  }

  // ---------------------------------------------------------------- the number is honest

  lemma {:induction false} PageNumbered(v: Server, limit: nat)
    requires Inv(v.db) && |v.db.log| <= U64_MAX && Page(v, limit) != []
    ensures forall i :: 0 <= i < |Page(v, limit)| ==> Page(v, limit)[i].sequence == PageFrom(v) + i + 1
  {
    hide Fold, Lags;
    var from := PageFrom(v);
    forall i | 0 <= i < |Page(v, limit)| ensures Page(v, limit)[i].sequence == from + i + 1 {
      assert Page(v, limit)[i] == v.db.log[from + i];
      NumberOf(v.db, from + i);
    }
  }

  lemma {:induction false} NumberOf(db: Database, i: nat)
    requires Inv(db) && i < |db.log| <= U64_MAX
    ensures db.log[i].sequence == i + 1
  {
    hide Fold, Lags, EntryScoped;
  }

  /** A delivered page ends at its last sequence. */
  lemma {:induction false} DeliveredTo(ix: Index, committed: u64, page: seq<Entry>, from: nat)
    requires committed <= from && from + |page| <= U64_MAX && Deliver(ix, committed, page).ok
    requires forall i :: 0 <= i < |page| ==> page[i].sequence == from + i + 1
    ensures Deliver(ix, committed, page).committed == if page == [] then committed else from + |page|
    decreases |page|
  {
    hide IndexOps;
    if page != [] {
      DeliveredTo(IndexOps(ix, page[0].operations).0, from + 1, page[1..], from + 1);
    }
  }

  /** After an advance, the index stands where its page ends. */
  lemma {:induction false} AdvanceReaches(v: Server, limit: nat)
    requires Inv(v.db) && |v.db.log| <= U64_MAX && Can(v, Advance(limit))
    ensures Next(v, Advance(limit)).committed == if Page(v, limit) == [] then v.committed else PageTo(v, limit)
  {
    hide Inv;
    if Page(v, limit) != [] {
      PageNumbered(v, limit);
      DeliveredTo(v.index, v.committed, Page(v, limit), PageFrom(v));
    }
  }

  /** What an engine step does to the first entries of the log. */
  lemma {:induction false} EnginePrefix(v: Server, h: Happening)
    requires Inv(v.db) && Honest(v) && Possible(v.db, h)
    ensures Honest(v.(db := Recovery.After(v.db, h))) <==> Steady(v, Engine(h))
  {
    hide Inv, EvalAll, Recovered, Direct.PlanCommand, ApplyOps, ApplyEntries;
    var n, next := v.committed, Recovery.After(v.db, h);
    if !h.Rewind? {
      assert v.db.log <= next.log;
      assert next.log[..n] == v.db.log[..n];
    } else if v.db.log[..n] <= next.log {
      assert next.log[..n] == v.db.log[..n];
    }
  }

  /** The index's number goes on standing for what it was built from exactly when the event is steady. */
  lemma {:induction false} HonestExactly(v: Server, e: Event)
    requires Inv(v.db) && |v.db.log| <= U64_MAX && Honest(v) && Can(v, e)
    ensures Honest(Next(v, e)) <==> Steady(v, e)
  {
    hide Inv, Possible;
    match e
    case Engine(h) => EnginePrefix(v, h);
    case Rebuild => assert v.db.log[..|v.db.log|] == v.db.log;
    case Advance(limit) =>
      AdvanceReaches(v, limit);
      var page := Page(v, limit);
      if page == [] {
        assert v.seen + page == v.seen;
      } else if v.db.retained <= v.committed {
        assert v.db.log[..v.committed] + page == v.db.log[..PageTo(v, limit)];
      } else {
        assert |v.seen + page| < PageTo(v, limit);
      }
  }

  // ---------------------------------------------------------------- runs

  ghost predicate IsRun(v: Server, es: seq<Event>, v': Server)
    decreases |es|
  {
    if es == [] then v' == v else Can(v, es[0]) && IsRun(Next(v, es[0]), es[1..], v')
  }

  /** Every engine step is safe, every event steady and in time. */
  ghost predicate GoodRun(v: Server, es: seq<Event>)
    decreases |es|
  {
    es == []
    || (Can(v, es[0]) && Steady(v, es[0]) && InTime(v, es[0])
        && (es[0].Engine? ==> Safe(v.db, es[0].happening)) && GoodRun(Next(v, es[0]), es[1..]))
  }

  /** The index holds the projection of a store that lags the fold of what it was built from. */
  ghost predicate Current(v: Server) {
    && Inv(v.db) && |v.db.log| <= U64_MAX && Honest(v)
    && exists x :: Follows(v.db, v.index, v.committed, x, v.since)
  }

  lemma {:induction false} AdvanceCurrent(v: Server, limit: nat)
    requires Current(v) && Can(v, Advance(limit)) && Steady(v, Advance(limit))
    ensures Current(Next(v, Advance(limit)))
  {
    hide Inv, Follows, Deliver;
    var next := Next(v, Advance(limit));
    var x :| Follows(v.db, v.index, v.committed, x, v.since);
    HonestExactly(v, Advance(limit));
    var page := Page(v, limit);
    if page == [] {
      StandsStill(v);
      assert Follows(next.db, next.index, next.committed, x, next.since);
    } else {
      var x', since' := DeliveryFollows(v.db, v.index, v.committed, x, v.since, v.committed, PageTo(v, limit));
      assert Follows(next.db, next.index, next.committed, x', next.since);
    }
  }

  lemma {:induction false} StandsStill(v: Server)
    requires v.committed <= U64_MAX
    ensures Deliver(v.index, v.committed, []) == IndexState(v.index, v.committed, true)
  {
  }

  lemma {:induction false} EventCurrent(v: Server, e: Event)
    requires Current(v) && Can(v, e) && Steady(v, e) && InTime(v, e) && (e.Engine? ==> Safe(v.db, e.happening))
    ensures Current(Next(v, e))
  {
    hide Inv, Follows, Safe, Possible;
    HonestExactly(v, e);
    match e
    case Engine(h) =>
      var x :| Follows(v.db, v.index, v.committed, x, v.since);
      StepInv(v.db, h);
      EngineKeepsFollowing(v.db, h, v.index, v.committed, x, v.since);
    case Advance(limit) => AdvanceCurrent(v, limit);
    case Rebuild => FollowsFromStart(v.db);
  }

  lemma {:induction false} RunCurrent(v: Server, es: seq<Event>, v': Server)
    requires Current(v) && IsRun(v, es, v') && GoodRun(v, es)
    ensures Current(v')
    decreases |es|
  {
    hide Current, Can, Next, Steady, InTime;
    if es != [] {
      EventCurrent(v, es[0]);
      RunCurrent(Next(v, es[0]), es[1..], v');
    }
  }

  /**
    Over every good run of engine steps, advances and rebuilds, an index that has caught up answers every fast-path
    read exactly as the engine does, at every later instant.
   */
  lemma {:induction false} IndexReadsAgree(es: seq<Event>, v: Server, now: u64, cmd: Command)
    requires IsRun(START, es, v) && GoodRun(START, es)
    requires v.committed == |v.db.log| && v.db.clock <= now && FastPathRead(cmd)
    ensures Eval(v.db.live, now, cmd).Ok? && ReadReply(v.index, now, cmd) == Some(Eval(v.db.live, now, cmd).value.reply)
  {
    hide IsRun, GoodRun, Inv, Follows;
    EmptyInv();
    FollowsFromStart(EMPTY);
    assert [] == EMPTY.log[..0];
    assert Current(START);
    RunCurrent(START, es, v);
    var x :| Follows(v.db, v.index, v.committed, x, v.since);
    CaughtUpReadsAgree(v.db, v.index, x, v.since, now, cmd);
  }

  // ---------------------------------------------------------------- the conditions are needed

  /** The index says it has caught up and answers a GET otherwise than the engine. */
  ghost predicate StaleRead(v: Server, now: u64, key: Key) {
    && v.committed == |v.db.log| && v.db.clock <= now && Eval(v.db.live, now, GetKey(key)).Ok?
    && ReadReply(v.index, now, GetKey(key)) != Some(Eval(v.db.live, now, GetKey(key)).value.reply)
  }

  /** Every engine step of the run is safe and every event in time. */
  ghost predicate SafeButUnsteady(v: Server, es: seq<Event>)
    decreases |es|
  {
    es == []
    || (Can(v, es[0]) && InTime(v, es[0]) && (es[0].Engine? ==> Safe(v.db, es[0].happening))
        && SafeButUnsteady(Next(v, es[0]), es[1..]))
  }

  lemma {:induction false} RunThen(v: Server, es: seq<Event>, mid: Server, e: Event)
    requires IsRun(v, es, mid) && SafeButUnsteady(v, es) && Can(mid, e) && InTime(mid, e)
    requires e.Engine? ==> Safe(mid.db, e.happening)
    ensures IsRun(v, es + [e], Next(mid, e)) && SafeButUnsteady(v, es + [e])
    decreases |es|
  {
    hide Can, Next, InTime, Safe;
    if es == [] {
      assert [e][0] == e && [e][1..] == [] && [] + [e] == [e];
      assert IsRun(Next(mid, e), [], Next(mid, e)) && SafeButUnsteady(Next(mid, e), []);
    } else {
      assert (es + [e])[0] == es[0] && (es + [e])[1..] == es[1..] + [e];
      RunThen(Next(v, es[0]), es[1..], mid, e);
    }
  }

  /** One plain write, as an entry. */
  function Writes(sequence: u64, at: u64, key: Key, value: Bytes): Entry {
    Entry(sequence, 0, at, [Set(key, value, 1)])
  }

  lemma {:induction false} WritesApply(s: Store, e: Entry, sequence: u64, at: u64, key: Key, value: Bytes)
    requires e == Writes(sequence, at, key, value)
    ensures ApplyEntries(s, [e]) == Ok(s[key := StoredValue(value, None, 1)])
    ensures ScopedOps(s, e.operations, at)
    ensures forall ix, n: u64 :: n < sequence ==>
              Deliver(ix, n, [e]) == IndexState(ix[key := ReadEntry(value, None)], sequence, true)
  {
    OneEntry(s, e);
    ApplyOne(s, Set(key, value, 1));
    assert e.operations[1..] == [];
    forall ix: Index, n: u64 | n < sequence
      ensures Deliver(ix, n, [e]) == IndexState(ix[key := ReadEntry(value, None)], sequence, true)
    {
      var next := ix[key := ReadEntry(value, None)];
      assert IndexOps(next, e.operations[1..]) == (next, true);
      assert IndexOps(ix, e.operations) == (next, true);
      assert [e][0] == e && [e][1..] == [];
      assert Deliver(next, sequence, []) == IndexState(next, sequence, true);
    }
  }

  /** A log of one plain write is kept. */
  lemma {:induction false} OneKept(e: Entry, at: u64, key: Key, value: Bytes)
    requires e == Writes(1, at, key, value)
    ensures LogKept([e], [at]) && Fold([e]) == Ok(map[key := StoredValue(value, None, 1)])
  {
    hide ScopedOps;
    WritesApply(map[], e, 1, at, key, value);
    assert [e][..0] == [] && Fold([]) == Ok(map[]);
    assert EntryScoped([e], [at], 0);
  }

  const EARLY: Entry := Writes(1, 1, "k", [])
  const LATE: Entry := Writes(1, 2, "k", [7])

  /** The database after one entry from a leader, and after another leader's entry has taken its place. */
  ghost function Holding(e: Entry, at: u64, key: Key, value: Bytes): Database {
    EMPTY.(live := map[key := StoredValue(value, None, 1)], log := [e], times := [at], clock := at)
  }

  lemma {:induction false} FirstFollows(e: Entry, at: u64, key: Key, value: Bytes)
    requires e == Writes(1, at, key, value)
    ensures var h := Follow(at, [e], [at]);
            Possible(EMPTY, h) && Safe(EMPTY, h) && Recovery.After(EMPTY, h) == Holding(e, at, key, value)
  {
    hide LogKept, ApplyEntries;
    OneKept(e, at, key, value);
    WritesApply(map[], e, 1, at, key, value);
    assert [] + [e] == [e] && [] + [at] == [at];
  }

  lemma {:induction false} ThenReplaced()
    ensures var db, h := Holding(EARLY, 1, "k", []), Rewind(2, 0, [LATE], [2]);
            Possible(db, h) && Safe(db, h) && Recovery.After(db, h) == Holding(LATE, 2, "k", [7])
  {
    hide LogKept, ApplyEntries, RestartHarmless;
    var db, h := Holding(EARLY, 1, "k", []), Rewind(2, 0, [LATE], [2]);
    OneKept(LATE, 2, "k", [7]);
    WritesApply(map[], LATE, 1, 2, "k", [7]);
    var spliced := Spliced(db, 0, [LATE], [2]);
    assert db.log[..0] + [LATE] == [LATE] && db.times[..0] + [2] == [2];
    assert spliced.log[0..] == [LATE];
    assert Holding(LATE, 2, "k", [7]) == spliced.(live := Recovered(spliced).value, clock := 2);
    ReplacedHarmless(spliced);
  }

  lemma {:induction false} ReplacedHarmless(db: Database)
    requires db == EMPTY.(live := db.live, log := [LATE], times := [2], clock := 1) && Fold(db.log).Ok?
    ensures RestartHarmless(db, 2)
  {
    hide ApplyEntries, LogKept, KeyHarmless;
    OneKept(LATE, 2, "k", [7]);
    var moved := db.(clock := 2);
    assert db.log[..0] == [] && db.log[0..0] == [];
    EmptyInv();
    assert Durable(moved);
    GuardedIsHarmless(moved, 2);
    assert OverlapOps(moved) == OverlapOps(db) && TailOps(moved) == TailOps(db);
  }

  /** The index takes the entry it is shown. */
  lemma {:induction false} FirstAdvance()
    ensures var v := START.(db := Holding(EARLY, 1, "k", []));
            && Can(v, Advance(1))
            && Next(v, Advance(1)) == Server(v.db, map["k" := ReadEntry([], None)], 1, [EARLY], 1)
  {
    hide Deliver;
    var v := START.(db := Holding(EARLY, 1, "k", []));
    assert Page(v, 1) == [EARLY] && [] + [EARLY] == [EARLY];
    WritesApply(map[], EARLY, 1, 1, "k", []);
    assert Deliver(map[], 0, [EARLY]) == IndexState(map["k" := ReadEntry([], None)], 1, true);
  }

  /**
    An entry is delivered to the index, then replaced by a new leader's: the index keeps the old value for good, since
    it skips every sequence it has passed.
   */
  lemma {:induction false} ReplacedEntryStays() returns (es: seq<Event>, v: Server)
    ensures IsRun(START, es, v) && SafeButUnsteady(START, es) && StaleRead(v, 2, "k")
  {
    hide Can, Next, Safe, Possible, Recovery.After;
    var first, replaced := Engine(Follow(1, [EARLY], [1])), Engine(Rewind(2, 0, [LATE], [2]));
    var v1 := START.(db := Holding(EARLY, 1, "k", []));
    var v2 := Server(v1.db, map["k" := ReadEntry([], None)], 1, [EARLY], 1);
    FirstFollows(EARLY, 1, "k", []);
    ThenReplaced();
    FirstAdvance();
    EngineNext(START, first.happening);
    EngineNext(v2, replaced.happening);
    assert IsRun(START, [], START) && SafeButUnsteady(START, []);
    RunThen(START, [], START, first);
    RunThen(START, [] + [first], v1, Advance(1));
    RunThen(START, [] + [first] + [Advance(1)], v2, replaced);
    es, v := [] + [first] + [Advance(1)] + [replaced], v2.(db := Holding(LATE, 2, "k", [7]));
    ReadsDiffer(v, 2, "k");
  }

  lemma {:induction false} EngineNext(v: Server, h: Happening)
    requires Possible(v.db, h) && |Recovery.After(v.db, h).log| <= U64_MAX
    ensures Can(v, Engine(h)) && Next(v, Engine(h)) == v.(db := Recovery.After(v.db, h))
  {
  }

  lemma {:induction false} ReadsDiffer(v: Server, now: u64, key: Key)
    requires v.committed == |v.db.log| && v.db.clock <= now
    requires key in v.db.live && v.db.live[key].expiresAt.None?
    requires key in v.index ==> v.index[key].value != v.db.live[key].value
    ensures StaleRead(v, now, key)
  {
  }

  const SECOND: Entry := Writes(2, 3, "b", [])

  /** The log is pruned past the index: the next page leaves a gap that nothing notices. */
  lemma {:induction false} PrunedEntryMissing() returns (es: seq<Event>, v: Server)
    ensures IsRun(START, es, v) && SafeButUnsteady(START, es) && StaleRead(v, 3, "k")
  {
    hide Can, Next, Safe, Possible, Recovery.After;
    var first, pruned := Engine(Follow(1, [EARLY], [1])), Engine(TakeSnapshot(2, 1));
    var second := Engine(Follow(3, [SECOND], [3]));
    var v1 := START.(db := Holding(EARLY, 1, "k", []));
    FirstFollows(EARLY, 1, "k", []);
    EngineNext(START, first.happening);
    RunThen(START, [], START, first);
    ThenPruned();
    EngineNext(v1, pruned.happening);
    var v2 := v1.(db := Pruned());
    RunThen(START, [] + [first], v1, pruned);
    ThenSecond();
    EngineNext(v2, second.happening);
    var v3 := v2.(db := Both());
    RunThen(START, [] + [first] + [pruned], v2, second);
    GapAdvance();
    RunThen(START, [] + [first] + [pruned] + [second], v3, Advance(1));
    es := [] + [first] + [pruned] + [second] + [Advance(1)];
    v := Server(v3.db, map["b" := ReadEntry([], None)], 2, [SECOND], 3);
    ReadsDiffer(v, 3, "k");
  }

  ghost function Pruned(): Database {
    var db := Holding(EARLY, 1, "k", []);
    db.(snapshot := db.live, snapshotAt := 1, snapshotClock := 2, retained := 1, clock := 2)
  }

  ghost function Both(): Database {
    var db := Pruned();
    db.(live := db.live["b" := StoredValue([], None, 1)], log := [EARLY, SECOND], times := [1, 3], clock := 3)
  }

  lemma {:induction false} ThenPruned()
    ensures var db, h := Holding(EARLY, 1, "k", []), TakeSnapshot(2, 1);
            Possible(db, h) && Safe(db, h) && Recovery.After(db, h) == Pruned()
  {
    var db := Holding(EARLY, 1, "k", []);
    assert Purge(db.live, 2) == db.live;
  }

  lemma {:induction false} ThenSecond()
    ensures var h := Follow(3, [SECOND], [3]);
            Possible(Pruned(), h) && Safe(Pruned(), h) && Recovery.After(Pruned(), h) == Both()
  {
    hide LogKept, ApplyEntries, Fold;
    var db := Pruned();
    OneKept(EARLY, 1, "k", []);
    WritesApply(db.live, SECOND, 2, 3, "b", []);
    OneEntry(db.live, SECOND);
    assert [EARLY] + [SECOND] == [EARLY, SECOND] && [1] + [3] == [1, 3];
    AppendKept([EARLY], [1], SECOND, 3);
  }

  lemma {:induction false} GapAdvance()
    ensures var v := START.(db := Both());
            && Can(v, Advance(1))
            && Next(v, Advance(1)) == Server(v.db, map["b" := ReadEntry([], None)], 2, [SECOND], 3)
  {
    hide Deliver;
    var v := START.(db := Both());
    assert Page(v, 1) == [SECOND] && [] + [SECOND] == [SECOND];
    WritesApply(map[], SECOND, 2, 3, "b", []);
    assert Deliver(map[], 0, [SECOND]) == IndexState(map["b" := ReadEntry([], None)], 2, true);
  }
}
