/** The append handler on a whole engine, for any payload, and what it makes of a leader's log. */
module FollowerAppend {
  import opened Base
  import opened Keyspace
  import opened LogCache
  import opened Suffix
  import opened Append
  import opened Lag
  import opened Recovery
  import opened EngineRuns
  import E = Engine

  lemma {:induction false} NumberedCondenses(checksum: Checksum, entries: seq<Entry>, prefix: u64)
    requires Numbered(entries, prefix)
    ensures Condense(checksum, entries) == Ok(entries)
    decreases |entries|
  {
    if entries != [] {
      NumberedRest(entries, prefix, |entries| - 1);
      NumberedCondenses(checksum, entries[..|entries| - 1], prefix);
      assert entries == entries[..|entries| - 1] + [entries[|entries| - 1]];
    }
  }

  /** Consecutive entries above a prefix are sent as they are. */
  lemma {:induction false} SentAsIs(checksum: Checksum, entries: seq<Entry>, prefix: u64)
    requires forall i :: 0 <= i < |entries| ==> entries[i].sequence > prefix
    requires entries != [] ==> Numbered(entries, entries[0].sequence - 1)
    ensures Condense(checksum, Above(entries, prefix)) == Ok(entries)
  {
    AllAbove(entries, prefix);
    if entries != [] {
      NumberedCondenses(checksum, entries, entries[0].sequence - 1);
    }
  }

  lemma {:induction false} ShownLog(log: seq<Entry>)
    requires Continues(log, 0) && |log| <= U64_MAX
    ensures Numbered(log, 0)
  {
    forall i | 0 <= i < |log| ensures log[i].sequence == 1 + i {
      assert log[i].sequence == SequenceAfter(0 + i);
    }
  }

  lemma {:induction false} ContinuesNumbered(entries: seq<Entry>, n: nat)
    requires Continues(entries, n) && n + |entries| <= U64_MAX
    ensures Numbered(entries, n)
  {
    forall i | 0 <= i < |entries| ensures entries[i].sequence == n + 1 + i {
      assert entries[i].sequence == SequenceAfter(n + i);
    }
  }

  /** The log once something, or nothing, has happened. */
  ghost function LogAfter(db: Database, happened: Option<Happening>): seq<Entry>
    requires happened.Some? ==> Possible(db, happened.value)
  {
    if happened.Some? then After(db, happened.value).log else db.log
  }

  ghost function Stamps(stampOf: nat -> u64, from: nat, count: nat): seq<u64> {
    seq(count, i requires 0 <= i < count => stampOf(from + i))
  }

  method PlanFor(engine: E.Engine, m: AppendRequest, ghost db: Database) returns (plan: Plan)
    requires engine.Valid() && Shows(engine, db)
    ensures |db.log| <= U64_MAX && Sound(db.log, m, plan)
    ensures plan.Refuse? <==> Refused(engine.checksum, db.log, db.retained, m)
    ensures Ordered(m) ==> Carried(db.log, plan) == Outcome(engine.checksum, db.log, db.retained, m)
  {
    hide Continues, IdentifiesExactly, Outcome, Ordered, Sound, Carried, Refused;
    ShownLog(db.log);
    plan := PlanAppend(engine.checksum, engine.identities, engine.state.metadata.lastApplied, m, db.log, db.retained);
  }

  /** What an answer says about the log it leaves. */
  ghost predicate Answered(checksum: Checksum, db: Database, m: AppendRequest, after: seq<Entry>, reported: u64) {
    && !Refused(checksum, db.log, db.retained, m)
    && (reported == |after| || (after == db.log && reported == m.prev > |db.log|))
    && (Ordered(m) ==> Outcome(checksum, db.log, db.retained, m) == Some(after) && reported == |after|)
  }

  lemma {:induction false} KeepAnswers(checksum: Checksum, db: Database, m: AppendRequest, plan: Plan)
    requires |db.log| <= U64_MAX && plan.Keep? && Sound(db.log, m, plan) && !Refused(checksum, db.log, db.retained, m)
    requires Ordered(m) ==> Carried(db.log, plan) == Outcome(checksum, db.log, db.retained, m)
    ensures Answered(checksum, db, m, db.log, plan.reported)
  {
    hide Agreeing;
  }

  lemma {:induction false} ExtendAnswers(checksum: Checksum, db: Database, m: AppendRequest, plan: Plan,
                                         after: seq<Entry>)
    requires |db.log| <= U64_MAX && plan.Extend? && !Refused(checksum, db.log, db.retained, m)
    requires Ordered(m) ==> Carried(db.log, plan) == Outcome(checksum, db.log, db.retained, m)
    requires Numbered(plan.entries, |db.log|) && after == db.log + plan.entries
    ensures Answered(checksum, db, m, after, |after|)
  {
    hide Outcome, Ordered;
  }

  lemma {:induction false} ReplaceAnswers(checksum: Checksum, db: Database, m: AppendRequest, plan: Plan,
                                          sent: seq<Entry>, after: seq<Entry>)
    requires |db.log| <= U64_MAX && plan.Replace? && Sound(db.log, m, plan)
    requires !Refused(checksum, db.log, db.retained, m)
    requires Ordered(m) ==> Carried(db.log, plan) == Outcome(checksum, db.log, db.retained, m)
    requires Condense(checksum, Above(plan.entries, plan.prefix)) == Ok(sent)
    requires plan.prefix <= |db.log| && Continues(sent, plan.prefix) && |after| <= U64_MAX
    requires after == db.log[..plan.prefix] + sent
    ensures Answered(checksum, db, m, after, |after|)
  {
    hide Outcome, Condense, Above, Continues, Refused, Ordered;
    if Ordered(m) {
      SentAsIs(checksum, plan.entries, plan.prefix);
      ContinuesNumbered(sent, plan.prefix);
    }
  }

  /**
    The handler on any payload and any log: refused, failed, or accepted, with the engine showing the database after
    nothing, a `Follow` or a `Rewind`; `Answered` says what the log then is.
   */
  method AnswerAppend(engine: E.Engine, m: AppendRequest, walOk: bool, ghost db: Database, ghost stampOf: nat -> u64,
                      ghost now: u64)
    returns (r: Result<u64, EngineError>, accepted: bool, ghost happened: Option<Happening>)
    requires engine.Valid() && Shows(engine, db) && db.clock <= now
    requires |db.log| + |m.entries| <= U64_MAX && m.prev + |m.entries| <= U64_MAX
    modifies engine, engine.state
    ensures engine.Valid()
    ensures happened.Some? ==> Possible(db, happened.value) && Shows(engine, After(db, happened.value))
    ensures happened.None? ==> Shows(engine, db)
    ensures !accepted ==> happened.None?
    ensures !accepted && r.Ok? <==> Refused(engine.checksum, db.log, db.retained, m)
    ensures accepted ==> r.Ok? && Answered(engine.checksum, db, m, LogAfter(db, happened), r.value)
    ensures happened.Some? ==> FromLeader(db, happened.value, stampOf, now)
  {
    hide Continues, CacheKept, Condense, Above, Numbered, ApplyEntries, Outcome, Ordered, Refused, Carried, Answered,
         Recovered;
    accepted, happened := false, None;
    var plan := PlanFor(engine, m, db);
    match plan {
      case Refuse(hint) =>
        r := Ok(hint);
      case Keep(reported) =>
        KeepAnswers(engine.checksum, db, m, plan);
        r, accepted := Ok(reported), true;
      case Extend(entries) =>
        ghost var h := Follow(now, entries, Stamps(stampOf, |db.log|, |entries|));
        r := AppendFromLeader(engine, entries, walOk, db, now, h.stamps);
        if r.Ok? {
          ContinuesNumbered(entries, |db.log|);
          ExtendAnswers(engine.checksum, db, m, plan, After(db, h).log);
          accepted, happened := true, Some(h);
        }
      case Replace(prefix, entries) =>
        ghost var sent := Condense(engine.checksum, Above(entries, prefix));
        ghost var stamps := if sent.Ok? then Stamps(stampOf, prefix, |sent.value|) else [];
        r := RewindToLeader(engine, prefix, entries, db, now, stamps);
        if r.Ok? {
          ghost var h := Rewind(now, prefix, sent.value, stamps);
          ReplaceAnswers(engine.checksum, db, m, plan, sent.value, After(db, h).log);
          accepted, happened := true, Some(h);
        }
    }
  }

  /** A happening that takes entries, with the clock readings given for their places in the log. */
  ghost predicate FromLeader(db: Database, h: Happening, stampOf: nat -> u64, now: u64) {
    match h
    case Follow(at, entries, stamps) => at == now && stamps == Stamps(stampOf, |db.log|, |entries|)
    case Rewind(at, keep, entries, stamps) => at == now && stamps == Stamps(stampOf, keep, |entries|)
    case _ => false
  }

  // ---------------------------------------------------------------- against the leader

  /**
    Answering an append cut from a matching leader's log leaves the leader's log up to the last entry sent, exactly
    when the entry before the first one sent is shared; naming that entry makes sure of it.
   */
  lemma {:induction false} AnswerIsLeaderPrefix(checksum: Checksum, db: Database, m: AppendRequest, leader: seq<Entry>,
                                                after: seq<Entry>, reported: u64)
    requires WholeLog(db.log, db.retained) && CutFrom(checksum, m, leader) && Matching(checksum, db.log, leader)
    requires Answered(checksum, db, m, after, reported)
    ensures after == leader[..Start(m) + |m.entries|] <==> SharedAt(db.log, leader, Start(m))
    ensures Start(m) == m.prev ==> SharedAt(db.log, leader, Start(m))
    ensures reported == Start(m) + |m.entries|
  {
    hide CutFrom, Matching, Refused, Agreeing;
    CutBounds(checksum, m, leader);
    AcceptedExactly(checksum, db.log, db.retained, m, leader);
  }

  /** The follower's log once it has taken the leader's entries, with the leader's clock readings. */
  ghost predicate TakesLeaders(db: Database, h: Happening, leader: Database) {
    match h
    case Follow(_, entries, stamps) =>
      db.log + entries <= leader.log && db.times + stamps <= leader.times && |entries| == |stamps|
    case Rewind(_, keep, entries, stamps) =>
      && keep <= |db.log| && keep <= |db.times| && |entries| == |stamps|
      && db.log[..keep] + entries <= leader.log && db.times[..keep] + stamps <= leader.times
    case _ => false
  }

  /**
    For a follower whose log becomes a prefix of the log of a leader that keeps its invariant, taking the entries is
    safe exactly when the follower's clock allows them and, for a replaced suffix, the rebuild is harmless.
   */
  lemma {:induction false} SafeFromLeader(db: Database, h: Happening, leader: Database)
    requires Inv(db) && Inv(leader) && TakesLeaders(db, h, leader)
    ensures h.Rewind? ==> Fold(Spliced(db, h.keep, h.entries, h.stamps).log).Ok?
    ensures Safe(db, h) <==>
            && (forall t :: t in h.stamps ==> (if h.Follow? then db.clock else db.snapshotClock) <= t <= h.now)
            && (h.Rewind? && db.retained <= db.snapshotAt <= h.keep ==>
                  RestartHarmless(Spliced(db, h.keep, h.entries, h.stamps), h.now))
  {
    hide LogKept, Lags, RestartHarmless, SnapshotKept, Fold;
    var log := if h.Follow? then db.log + h.entries else db.log[..h.keep] + h.entries;
    var times := if h.Follow? then db.times + h.stamps else db.times[..h.keep] + h.stamps;
    KeptLengths(leader);
    KeptLengths(db);
    assert log == leader.log[..|log|] && times == leader.times[..|log|];
    LogPrefixKept(leader.log, leader.times, |log|);
  }
}
