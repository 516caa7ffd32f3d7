/**
  A follower's answer to a leader's append: the check of the entry before, the scan over the entries it already has,
  and the choice between keeping, extending and replacing a suffix of its log.
 */
module Append {
  import opened Base
  import opened Keyspace
  import opened LogCache
  import opened Suffix

  /** Entries to follow `prev`, and the identity of the leader's own entry there (none before the first). */
  datatype AppendRequest = AppendRequest(prev: u64, prevIdentity: Option<Identity>, entries: seq<Entry>)

  /** `reported` is the sequence an accepted append that changes nothing answers with. */
  datatype Plan =
    | Refuse(hint: u64)
    | Keep(reported: u64)
    | Extend(entries: seq<Entry>)
    | Replace(prefix: u64, entries: seq<Entry>)

  /** Where the entries sent begin; without entries, after the entry before. */
  function Start(m: AppendRequest): u64 {
    if m.entries == [] || m.entries[0].sequence == 0 then m.prev else m.entries[0].sequence - 1
  }

  /**
    What leaders send: consecutive entries, not starting below the entry before, short of the last sequence there is.
    They may start above it: a leader that has pruned its first entries sends the rest with nothing before them.
   */
  ghost predicate Ordered(m: AppendRequest) {
    m.prev <= Start(m) && Numbered(m.entries, Start(m)) && Start(m) + |m.entries| < U64_MAX
  }

  /** A whole log, numbered from one; its first `retained` entries are in the snapshot only. */
  ghost predicate WholeLog(log: seq<Entry>, retained: nat) {
    retained <= |log| && Numbered(log, 0)
  }

  /** The identity the follower can look up at a sequence. */
  ghost function KnownAt(checksum: Checksum, log: seq<Entry>, retained: nat, s: u64): Option<Identity> {
    if retained < s <= |log| then Some(IdentityOf(checksum, log[s - 1])) else None
  }

  function LocalIdentity(ids: map<u64, Identity>, s: u64): Option<Identity> {
    if s != 0 && s in ids then Some(ids[s]) else None
  }

  lemma {:induction false} LocalIsKnown(checksum: Checksum, log: seq<Entry>, retained: nat, ids: map<u64, Identity>,
                                        s: u64)
    requires WholeLog(log, retained) && IdentifiesExactly(checksum, log[retained..], ids)
    ensures LocalIdentity(ids, s) == KnownAt(checksum, log, retained, s)
  {
    if retained < s <= |log| {
      assert log[retained..][s - 1 - retained] == log[s - 1];
    }
    CachedRange(log, retained, s);
  }

  lemma {:induction false} CachedRange(log: seq<Entry>, retained: nat, s: u64)
    requires WholeLog(log, retained)
    ensures HasSequence(log[retained..], s) ==> retained < s <= |log|
  {
    var cache := log[retained..];
    if HasSequence(cache, s) {
      var i :| 0 <= i < |cache| && cache[i].sequence == s;
      assert cache[i] == log[retained + i];
    }
  }

  /** How many of the entries sent, from the first, the follower already has. */
  ghost function Agreeing(checksum: Checksum, log: seq<Entry>, retained: nat, entries: seq<Entry>): (n: nat)
    ensures n <= |entries|
  {
    if entries == [] || KnownAt(checksum, log, retained, entries[0].sequence) != Some(IdentityOf(checksum, entries[0]))
    then 0 else 1 + Agreeing(checksum, log, retained, entries[1..])
  }

  /** The handler refuses: it cannot look up the entry before, or that entry is beyond its log and nothing follows. */
  ghost predicate Refused(checksum: Checksum, log: seq<Entry>, retained: nat, m: AppendRequest) {
    KnownAt(checksum, log, retained, m.prev) != m.prevIdentity || (m.entries == [] && |log| < m.prev)
  }

  /**
    The log an append leaves, or none if it is refused or fails: everything up to the last entry that agrees, then the
    rest of what was sent.  Whatever else the follower had is gone.
   */
  ghost function Outcome(checksum: Checksum, log: seq<Entry>, retained: nat, m: AppendRequest): Option<seq<Entry>>
    requires Ordered(m)
  {
    if Refused(checksum, log, retained, m) then None
    else
      var n := Agreeing(checksum, log, retained, m.entries);
      if Start(m) + n <= |log| then Some(log[..Start(m) + n] + m.entries[n..]) else None
  }

  /** What carrying out a plan does to the log; entries that do not continue it fail. */
  ghost function Carried(log: seq<Entry>, plan: Plan): Option<seq<Entry>>
    requires |log| <= U64_MAX
  {
    match plan
    case Refuse(_) => None
    case Keep(_) => Some(log)
    case Extend(entries) => if Numbered(entries, |log|) then Some(log + entries) else None
    case Replace(prefix, entries) =>
      if prefix <= |log| && Numbered(entries, prefix) then Some(log[..prefix] + entries) else None
  }

  /** The scan over the overlap stops at the first entry the follower does not have. */
  method Scan(checksum: Checksum, ids: map<u64, Identity>, current: u64, entries: seq<Entry>, ghost log: seq<Entry>,
              ghost retained: nat)
    returns (n: nat, conflict: bool)
    requires WholeLog(log, retained) && |log| == current && IdentifiesExactly(checksum, log[retained..], ids)
    ensures n == Agreeing(checksum, log, retained, entries)
    ensures conflict <==> n < |entries| && entries[n].sequence <= current
  {
    hide IdentifiesExactly;
    n := 0;
    assert entries[0..] == entries;
    while n < |entries|
      invariant n <= |entries|
      invariant Agreeing(checksum, log, retained, entries) == n + Agreeing(checksum, log, retained, entries[n..])
    {
      var e := entries[n];
      assert entries[n..][0] == e && entries[n..][1..] == entries[n + 1..];
      if e.sequence > current {
        return n, false;
      }
      LocalIsKnown(checksum, log, retained, ids, e.sequence);
      if LocalIdentity(ids, e.sequence) != Some(IdentityOf(checksum, e)) {
        return n, true;
      }
      n := n + 1;
    }
    conflict := false;
  }

  /** The entries from the first that is not below `bound`. */
  function SkipBelow(entries: seq<Entry>, bound: u64): (r: seq<Entry>)
    ensures |r| <= |entries| && r == entries[|entries| - |r|..]
    ensures r != [] ==> r[0].sequence >= bound
  {
    if entries == [] || entries[0].sequence >= bound then entries else SkipBelow(entries[1..], bound)
  }

  /**
    The handler's decisions, on any payload.  It refuses exactly as `Refused` says, and on what leaders send its plan,
    carried out, gives exactly `Outcome`.
   */
  method PlanAppend(checksum: Checksum, ids: map<u64, Identity>, current: u64, m: AppendRequest, ghost log: seq<Entry>,
                    ghost retained: nat)
    returns (plan: Plan)
    requires WholeLog(log, retained) && |log| == current && IdentifiesExactly(checksum, log[retained..], ids)
    ensures plan.Refuse? <==> Refused(checksum, log, retained, m)
    ensures plan.Refuse? ==> plan.hint == Hint(checksum, log, retained, m)
    ensures Ordered(m) ==> Carried(log, plan) == Outcome(checksum, log, retained, m)
    ensures Ordered(m) && Start(m) == m.prev ==>
              CutsAt(log, plan, m.prev + Agreeing(checksum, log, retained, m.entries))
    ensures Sound(log, m, plan)
  {
    hide IdentifiesExactly, Agreeing, Above, SkipBelow, KnownAt, Outcome, Ordered, Sound, Onward;
    LocalIsKnown(checksum, log, retained, ids, m.prev);
    if LocalIdentity(ids, m.prev) != m.prevIdentity {
      plan := Refuse(SatSub(m.prev, 1));
      OutcomeWithout(checksum, log, retained, m);
      RefuseSound(log, m, plan);
      return;
    }
    if m.entries == [] {
      plan := if current < m.prev then Refuse(current)
              else if current > m.prev then Replace(m.prev, [])
              else Keep(current);
      EmptyPlan(checksum, log, retained, m, plan);
      return;
    }
    var n, conflict := Scan(checksum, ids, current, m.entries, log, retained);
    if conflict {
      var prefix := SatSub(m.entries[n].sequence, 1);
      plan := Replace(prefix, Above(m.entries, prefix));
      ConflictPlan(checksum, log, retained, m, n, plan);
      return;
    }
    var overlap := if n == 0 then m.prev else m.entries[n - 1].sequence;
    var suffix := SkipBelow(m.entries, SatAdd(overlap, 1));
    plan := Onward(current, overlap, suffix);
    OverlapPlan(checksum, log, retained, m, n, overlap, suffix, plan);
  }

  /** The sequence a refusal names: one before the entry that was not there, or the end of the log. */
  ghost function Hint(checksum: Checksum, log: seq<Entry>, retained: nat, m: AppendRequest): u64
    requires |log| <= U64_MAX
  {
    if KnownAt(checksum, log, retained, m.prev) == m.prevIdentity then |log|
    else if m.prev > 0 then m.prev - 1 else 0
  }

  /** A plan that keeps the log up to `k` and no more; it only has to replace anything if the log goes on. */
  ghost predicate CutsAt(log: seq<Entry>, plan: Plan, k: nat) {
    match plan
    case Refuse(_) => true
    case Keep(_) => k == |log|
    case Extend(_) => k == |log|
    case Replace(prefix, _) => prefix == k != |log|
  }

  /** What any plan, even for a malformed payload, is made of. */
  ghost predicate Sound(log: seq<Entry>, m: AppendRequest, plan: Plan)
    requires |log| <= U64_MAX
  {
    match plan
    case Refuse(_) => true
    case Keep(reported) => reported == |log| || (m.prev > |log| && reported == m.prev && m.entries != [])
    case Extend(entries) =>
      && entries != [] && entries[0].sequence == SatAdd(|log|, 1) && |entries| <= |m.entries|
      && (Ordered(m) ==> Numbered(entries, entries[0].sequence - 1))
    case Replace(prefix, entries) =>
      && (prefix <= |log| || prefix <= m.prev) && |entries| <= |m.entries|
      && (forall i :: 0 <= i < |entries| ==> entries[i].sequence > prefix)
      && (Ordered(m) && entries != [] ==> Numbered(entries, entries[0].sequence - 1))
  }

  lemma {:induction false} OutcomeWithout(checksum: Checksum, log: seq<Entry>, retained: nat, m: AppendRequest)
    requires Refused(checksum, log, retained, m)
    ensures Ordered(m) ==> Outcome(checksum, log, retained, m) == None
  {
  }

  lemma {:induction false} RefuseSound(log: seq<Entry>, m: AppendRequest, plan: Plan)
    requires |log| <= U64_MAX && plan.Refuse?
    ensures Sound(log, m, plan)
  {
  }

  lemma {:induction false} EmptyPlan(checksum: Checksum, log: seq<Entry>, retained: nat, m: AppendRequest, plan: Plan)
    requires WholeLog(log, retained) && m.entries == [] && KnownAt(checksum, log, retained, m.prev) == m.prevIdentity
    requires plan == if |log| < m.prev then Refuse(|log|)
                     else if |log| > m.prev then Replace(m.prev, [])
                     else Keep(|log|)
    ensures plan.Refuse? <==> Refused(checksum, log, retained, m)
    ensures Ordered(m) ==> Carried(log, plan) == Outcome(checksum, log, retained, m)
    ensures CutsAt(log, plan, m.prev + Agreeing(checksum, log, retained, m.entries))
    ensures Sound(log, m, plan)
  {
    if m.prev <= |log| {
      assert m.entries[0..] == [] && log[..m.prev] + [] == log[..m.prev];
      assert m.prev == |log| ==> log[..m.prev] == log;
    }
  }

  lemma {:induction false} LastAgrees(checksum: Checksum, log: seq<Entry>, retained: nat, entries: seq<Entry>)
    requires Agreeing(checksum, log, retained, entries) > 0
    ensures var e := entries[Agreeing(checksum, log, retained, entries) - 1];
            && KnownAt(checksum, log, retained, e.sequence) == Some(IdentityOf(checksum, e))
            && 0 < e.sequence <= |log|
    decreases |entries|
  {
    if Agreeing(checksum, log, retained, entries[1..]) > 0 {
      LastAgrees(checksum, log, retained, entries[1..]);
    }
  }

  lemma {:induction false} ConflictPlan(checksum: Checksum, log: seq<Entry>, retained: nat, m: AppendRequest, n: nat,
                                        plan: Plan)
    requires WholeLog(log, retained) && KnownAt(checksum, log, retained, m.prev) == m.prevIdentity
    requires n == Agreeing(checksum, log, retained, m.entries) && n < |m.entries| && m.entries[n].sequence <= |log|
    requires plan == Replace(SatSub(m.entries[n].sequence, 1), Above(m.entries, SatSub(m.entries[n].sequence, 1)))
    ensures Ordered(m) ==> Carried(log, plan) == Outcome(checksum, log, retained, m)
    ensures Ordered(m) ==> CutsAt(log, plan, Start(m) + n)
    ensures Sound(log, m, plan)
  {
    hide Agreeing, Above, KnownAt;
    if Ordered(m) {
      AboveRest(m.entries, Start(m), n);
      assert m.entries[n..][0] == m.entries[n];
    }
  }

  /** The plan once the entries that agree have been passed. */
  function Onward(current: u64, overlap: u64, suffix: seq<Entry>): (plan: Plan)
    ensures !plan.Refuse?
  {
    if suffix == [] && current > overlap then Replace(overlap, [])
    else if suffix == [] then Keep(if current > overlap then current else overlap)
    else if SatAdd(current, 1) != suffix[0].sequence then Replace(overlap, Above(suffix, overlap))
    else Extend(suffix)
  }

  lemma {:induction false} OverlapPlan(checksum: Checksum, log: seq<Entry>, retained: nat, m: AppendRequest, n: nat,
                                       overlap: u64, suffix: seq<Entry>, plan: Plan)
    requires WholeLog(log, retained) && KnownAt(checksum, log, retained, m.prev) == m.prevIdentity && m.entries != []
    requires n == Agreeing(checksum, log, retained, m.entries) && (n < |m.entries| ==> m.entries[n].sequence > |log|)
    requires overlap == if n == 0 then m.prev else m.entries[n - 1].sequence
    requires suffix == SkipBelow(m.entries, SatAdd(overlap, 1)) && plan == Onward(|log|, overlap, suffix)
    ensures Ordered(m) ==> Carried(log, plan) == Outcome(checksum, log, retained, m)
    ensures Ordered(m) && Start(m) == m.prev ==> CutsAt(log, plan, Start(m) + n)
    ensures Sound(log, m, plan)
  {
    hide Agreeing, Above, KnownAt, SkipBelow, Onward, Outcome, Carried, Sound;
    if n > 0 {
      LastAgrees(checksum, log, retained, m.entries);
    }
    if Ordered(m) {
      SkipOrdered(m, n, overlap);
      NumberedRest(m.entries, Start(m), n);
      OnwardOrdered(log, m, n, overlap, plan);
      OutcomeIs(checksum, log, retained, m, n);
    } else {
      OnwardSound(log, m, overlap, suffix, plan);
    }
  }

  lemma {:induction false} OutcomeIs(checksum: Checksum, log: seq<Entry>, retained: nat, m: AppendRequest, n: nat)
    requires Ordered(m) && m.entries != [] && KnownAt(checksum, log, retained, m.prev) == m.prevIdentity
    requires n == Agreeing(checksum, log, retained, m.entries)
    ensures Outcome(checksum, log, retained, m) ==
            if Start(m) + n <= |log| then Some(log[..Start(m) + n] + m.entries[n..]) else None
  {
  }

  lemma {:induction false} OnwardSound(log: seq<Entry>, m: AppendRequest, overlap: u64, suffix: seq<Entry>, plan: Plan)
    requires |log| <= U64_MAX && (overlap <= |log| || overlap == m.prev) && m.entries != [] && !Ordered(m)
    requires suffix == SkipBelow(m.entries, SatAdd(overlap, 1)) && plan == Onward(|log|, overlap, suffix)
    ensures Sound(log, m, plan)
  {
    hide Above, SkipBelow;
  }

  /** Consecutive entries: what is left of them continues the log, or cannot. */
  lemma {:induction false} OnwardOrdered(log: seq<Entry>, m: AppendRequest, n: nat, overlap: u64, plan: Plan)
    requires |log| <= U64_MAX && Ordered(m) && n <= |m.entries| && m.entries != []
    requires overlap == if n == 0 then m.prev else m.entries[n - 1].sequence
    requires n > 0 ==> overlap <= |log|
    requires n < |m.entries| ==> |log| < m.entries[n].sequence && overlap < m.entries[n].sequence
    requires Numbered(m.entries[n..], Start(m) + n) && plan == Onward(|log|, overlap, m.entries[n..])
    ensures Carried(log, plan) ==
            if Start(m) + n <= |log| then Some(log[..Start(m) + n] + m.entries[n..]) else None
    ensures Start(m) == m.prev ==> CutsAt(log, plan, Start(m) + n)
    ensures Sound(log, m, plan)
  {
    hide Above;
    var rest := m.entries[n..];
    if rest == [] {
      assert overlap == Start(m) + n && log[..overlap] + [] == log[..overlap];
      assert overlap == |log| ==> log[..overlap] == log;
    } else {
      AboveOverlap(rest, overlap);
      assert rest[0].sequence == Start(m) + n + 1;
      assert Start(m) + n == |log| ==> log[..Start(m) + n] == log;
    }
  }

  lemma {:induction false} AboveOverlap(suffix: seq<Entry>, overlap: u64)
    requires suffix != [] && suffix[0].sequence > overlap && Numbered(suffix, suffix[0].sequence - 1)
    ensures Above(suffix, overlap) == suffix
  {
    AllAbove(suffix, overlap);
  }

  /** Skipping what agrees leaves exactly the rest. */
  lemma {:induction false} SkipOrdered(m: AppendRequest, n: nat, overlap: u64)
    requires Ordered(m) && n <= |m.entries| && m.entries != []
    requires overlap == if n == 0 then m.prev else m.entries[n - 1].sequence
    ensures SkipBelow(m.entries, SatAdd(overlap, 1)) == m.entries[n..]
    ensures n == |m.entries| || m.entries[n].sequence > overlap
  {
    hide SkipBelow;
    SkipTo(m.entries, SatAdd(overlap, 1), n);
  }

  lemma {:induction false} SkipTo(entries: seq<Entry>, bound: u64, n: nat)
    requires n <= |entries| && (forall i :: 0 <= i < n ==> entries[i].sequence < bound)
    requires n < |entries| ==> entries[n].sequence >= bound
    ensures SkipBelow(entries, bound) == entries[n..]
    decreases n
  {
    if n > 0 {
      SkipTo(entries[1..], bound, n - 1);
      assert entries[1..][n - 1..] == entries[n..];
    }
  }

  lemma {:induction false} NumberedRest(entries: seq<Entry>, prev: u64, n: nat)
    requires Numbered(entries, prev) && n <= |entries|
    ensures Numbered(entries[n..], prev + n) && Numbered(entries[..n], prev)
  {
  }

  /** `replacement_entries_after` on numbered entries. */
  lemma {:induction false} AboveRest(entries: seq<Entry>, prev: u64, n: nat)
    requires Numbered(entries, prev) && n <= |entries|
    ensures Above(entries, prev + n) == entries[n..] && Numbered(entries[n..], prev + n)
  {
    hide Above;
    NumberedRest(entries, prev, n);
    assert entries == entries[..n] + entries[n..];
    AboveSplits(entries[..n], entries[n..], prev + n);
    NoneAbove(entries[..n], prev + n);
    AllAbove(entries[n..], prev + n);
    assert [] + entries[n..] == entries[n..];
  }

  lemma {:induction false} AboveSplits(a: seq<Entry>, b: seq<Entry>, bound: u64)
    ensures Above(a + b, bound) == Above(a, bound) + Above(b, bound)
    decreases |b|
  {
    hide Above;
    if b == [] {
      assert a + b == a;
      NoneAbove(b, bound);
    } else {
      var k := |b| - 1;
      AboveSplits(a, b[..k], bound);
      assert a + b == (a + b[..k]) + [b[k]] && b == b[..k] + [b[k]];
      AboveLast(a + b[..k], b[k], bound);
      AboveLast(b[..k], b[k], bound);
    }
  }

  lemma {:induction false} AboveLast(entries: seq<Entry>, e: Entry, bound: u64)
    ensures Above(entries + [e], bound) == Above(entries, bound) + if e.sequence > bound then [e] else []
  {
    assert (entries + [e])[..|entries|] == entries;
  }

  lemma {:induction false} AllAbove(entries: seq<Entry>, bound: u64)
    requires forall i :: 0 <= i < |entries| ==> entries[i].sequence > bound
    ensures Above(entries, bound) == entries
  {
    if entries != [] {
      AllAbove(entries[..|entries| - 1], bound);
    }
  }

  lemma {:induction false} NoneAbove(entries: seq<Entry>, bound: u64)
    requires forall i :: 0 <= i < |entries| ==> entries[i].sequence <= bound
    ensures Above(entries, bound) == []
  {
    if entries != [] {
      NoneAbove(entries[..|entries| - 1], bound);
    }
  }

  // ---------------------------------------------------------------- replacing a suffix

  /** The follower's own entry at a sequence has this identity. */
  ghost predicate HasThere(checksum: Checksum, log: seq<Entry>, e: Entry) {
    0 < e.sequence <= |log| && IdentityOf(checksum, log[e.sequence - 1]) == IdentityOf(checksum, e)
  }

  /**
    The engine's checks on a replacement, for a whole log: the cut is not inside the snapshot nor past the end; what
    was sent again for the sequences in between is what the log has there; and the rest starts right after the cut and
    goes on one by one, or repeats the same entry.
   */
  lemma {:induction false} ReplacementExactly(checksum: Checksum, log: seq<Entry>, retained: nat, base: nat,
                                              prefix: u64, entries: seq<Entry>)
    requires WholeLog(log, retained) && retained <= base <= |log|
    ensures Accepts(checksum, log[retained..], base, prefix, entries) <==>
            && base <= prefix <= |log|
            && (forall i :: 0 <= i < |entries| && base < entries[i].sequence <= prefix ==>
                  HasThere(checksum, log, entries[i]))
            && OneByOne(checksum, Above(entries, prefix), prefix)
  {
    hide Above, OneByOne;
    var cache := log[retained..];
    if base <= prefix {
      KeptExactly(log, retained, base, prefix);
      if prefix <= |log| {
        forall i | 0 <= i < |entries| && base < entries[i].sequence <= prefix
          ensures HoldsLike(checksum, log[retained..prefix], entries[i]) <==> HasThere(checksum, log, entries[i])
        {
          HeldThere(checksum, log, retained, prefix, entries[i]);
        }
      }
    }
  }

  lemma {:induction false} KeptExactly(log: seq<Entry>, retained: nat, base: nat, prefix: u64)
    requires WholeLog(log, retained) && retained <= base <= |log| && base <= prefix
    ensures var kept := Kept(log[retained..], prefix);
            && (prefix <= |log| ==> kept == log[retained..prefix])
            && ((if kept == [] then prefix == base else kept[|kept| - 1].sequence == prefix) <==> prefix <= |log|)
  {
    var cache := log[retained..];
    if cache != [] {
      assert cache[0] == log[retained] && cache[0].sequence == retained + 1;
      assert cache[|cache| - 1] == log[|log| - 1];
    }
    if retained < prefix <= |log| {
      assert log[retained..prefix][prefix - retained - 1] == log[prefix - 1];
    }
  }

  lemma {:induction false} HeldThere(checksum: Checksum, log: seq<Entry>, retained: nat, prefix: u64, e: Entry)
    requires WholeLog(log, retained) && retained < e.sequence <= prefix <= |log|
    ensures HoldsLike(checksum, log[retained..prefix], e) <==> HasThere(checksum, log, e)
  {
    var kept := log[retained..prefix];
    assert kept[e.sequence - 1 - retained] == log[e.sequence - 1];
    if HoldsLike(checksum, kept, e) {
      var i :| 0 <= i < |kept| && kept[i].sequence == e.sequence
               && IdentityOf(checksum, kept[i]) == IdentityOf(checksum, e);
      assert kept[i] == log[retained + i];
    }
  }

  // ---------------------------------------------------------------- against the leader's log

  /** Entries with one identity at one sequence have the same history behind them. */
  ghost predicate Matching(checksum: Checksum, a: seq<Entry>, b: seq<Entry>) {
    forall i :: 0 <= i < |a| && i < |b| && IdentityOf(checksum, a[i]) == IdentityOf(checksum, b[i]) ==>
      a[..i + 1] == b[..i + 1]
  }

  /** The request was cut out of this log; with nothing before it, it may start past the pruned entries. */
  ghost predicate CutFrom(checksum: Checksum, m: AppendRequest, log: seq<Entry>) {
    && Numbered(log, 0) && Start(m) + |m.entries| <= |log| && m.entries == log[Start(m)..Start(m) + |m.entries|]
    && Start(m) + |m.entries| < U64_MAX && (m.prev == Start(m) || m.prev == 0)
    && m.prevIdentity == if m.prev == 0 then None else Some(IdentityOf(checksum, log[m.prev - 1]))
  }

  lemma {:induction false} CutOrdered(checksum: Checksum, m: AppendRequest, log: seq<Entry>)
    requires CutFrom(checksum, m, log)
    ensures Ordered(m)
  {
    assert forall i :: 0 <= i < |m.entries| ==> m.entries[i] == log[Start(m) + i];
  }

  lemma {:induction false} CutBounds(checksum: Checksum, m: AppendRequest, log: seq<Entry>)
    requires CutFrom(checksum, m, log)
    ensures m.prev <= Start(m) && Start(m) + |m.entries| <= |log| <= U64_MAX
    ensures m.prev > 0 ==> Start(m) == m.prev && m.prevIdentity == Some(IdentityOf(checksum, log[m.prev - 1]))
    ensures m.prev == 0 ==> m.prevIdentity.None?
  {
  }

  /** The two logs have the same entry at position `s`, counted from one. */
  ghost predicate SharedAt(a: seq<Entry>, b: seq<Entry>, s: nat) {
    s == 0 || (s <= |a| && s <= |b| && a[s - 1] == b[s - 1])
  }

  lemma {:induction false} SharedPrefix(checksum: Checksum, a: seq<Entry>, b: seq<Entry>, s: nat)
    requires Matching(checksum, a, b) && SharedAt(a, b, s)
    ensures s <= |a| && s <= |b| && a[..s] == b[..s]
  {
  }

  /** Up to the last entry that agrees, the two logs are one. */
  lemma {:induction false} AgreedPrefix(checksum: Checksum, log: seq<Entry>, retained: nat, m: AppendRequest,
                                        leader: seq<Entry>)
    requires CutFrom(checksum, m, leader) && Matching(checksum, log, leader) && SharedAt(log, leader, Start(m))
    ensures var k := Start(m) + Agreeing(checksum, log, retained, m.entries); k <= |log| && log[..k] == leader[..k]
  {
    hide Agreeing;
    SharedPrefix(checksum, log, leader, Start(m));
    var n := Agreeing(checksum, log, retained, m.entries);
    if n > 0 {
      LastAgrees(checksum, log, retained, m.entries);
      assert m.entries[n - 1] == leader[Start(m) + n - 1];
    }
  }

  /** A follower that can look up the leader's entry before the first one sent shares it. */
  lemma {:induction false} CheckedIsShared(checksum: Checksum, log: seq<Entry>, retained: nat, m: AppendRequest,
                                           leader: seq<Entry>)
    requires CutFrom(checksum, m, leader) && Matching(checksum, log, leader)
    requires KnownAt(checksum, log, retained, m.prev) == m.prevIdentity && Start(m) == m.prev
    ensures SharedAt(log, leader, Start(m))
  {
    if m.prev > 0 {
      assert log[..m.prev][m.prev - 1] == leader[..m.prev][m.prev - 1];
    }
  }

  /** Taken as the leader's own history, an append leaves the leader's log up to the last entry sent. */
  lemma {:induction false} JoinedIsLeaderPrefix(checksum: Checksum, log: seq<Entry>, retained: nat, m: AppendRequest,
                                                leader: seq<Entry>)
    requires WholeLog(log, retained) && CutFrom(checksum, m, leader) && Matching(checksum, log, leader)
    requires KnownAt(checksum, log, retained, m.prev) == m.prevIdentity && SharedAt(log, leader, Start(m))
    ensures Ordered(m) && Outcome(checksum, log, retained, m) == Some(leader[..Start(m) + |m.entries|])
  {
    hide Agreeing, Matching, KnownAt, Ordered;
    CutOrdered(checksum, m, leader);
    AgreedPrefix(checksum, log, retained, m, leader);
    var n := Agreeing(checksum, log, retained, m.entries);
    CutRest(leader, Start(m), n, |m.entries|);
  }

  lemma {:induction false} CutRest(leader: seq<Entry>, start: nat, n: nat, count: nat)
    requires n <= count && start + count <= |leader|
    ensures leader[..start + n] + leader[start..start + count][n..] == leader[..start + count]
  {
  }

  /**
    An append that names the entry before it is accepted exactly when the follower can look that entry up, and then
    its log is the leader's up to the last entry sent.  One that names none, because the leader has pruned, joins
    whatever the follower has: the log left is the leader's exactly when the entry before the first one sent is.
   */
  lemma {:induction false} AcceptedExactly(checksum: Checksum, log: seq<Entry>, retained: nat, m: AppendRequest,
                                           leader: seq<Entry>)
    requires WholeLog(log, retained) && CutFrom(checksum, m, leader) && Matching(checksum, log, leader)
    ensures Ordered(m)
    ensures Start(m) == m.prev ==>
              (Outcome(checksum, log, retained, m).Some? <==>
               KnownAt(checksum, log, retained, m.prev) == m.prevIdentity)
    ensures Outcome(checksum, log, retained, m).Some? ==>
              (Outcome(checksum, log, retained, m) == Some(leader[..Start(m) + |m.entries|]) <==>
               SharedAt(log, leader, Start(m)))
    ensures Outcome(checksum, log, retained, m).Some? && Start(m) == m.prev ==> SharedAt(log, leader, Start(m))
  {
    hide Agreeing, Matching;
    CutOrdered(checksum, m, leader);
    if KnownAt(checksum, log, retained, m.prev) == m.prevIdentity {
      if Start(m) == m.prev {
        CheckedIsShared(checksum, log, retained, m, leader);
      }
      if SharedAt(log, leader, Start(m)) {
        JoinedIsLeaderPrefix(checksum, log, retained, m, leader);
      } else if Outcome(checksum, log, retained, m).Some? {
        var s := Start(m);
        assert Outcome(checksum, log, retained, m).value[s - 1] == log[s - 1];
        assert leader[..s + |m.entries|][s - 1] == leader[s - 1];
      }
    }
  }

  /** Every entry the follower shared with the leader is still there. */
  ghost predicate KeepsShared(checksum: Checksum, log: seq<Entry>, leader: seq<Entry>, after: seq<Entry>) {
    forall i :: 0 <= i < |log| && i < |leader| && IdentityOf(checksum, log[i]) == IdentityOf(checksum, leader[i]) ==>
      i < |after| && after[i] == log[i]
  }

  /**
    An accepted append drops entries the follower shares with the leader exactly when it shares the one after the
    last entry sent, that is, when the request is older than what the follower has.
   */
  lemma {:induction false} KeepsSharedExactly(checksum: Checksum, log: seq<Entry>, m: AppendRequest, leader: seq<Entry>)
    requires CutFrom(checksum, m, leader) && Matching(checksum, log, leader)
    ensures var end := Start(m) + |m.entries|;
            KeepsShared(checksum, log, leader, leader[..end]) <==>
            !(end < |log| && end < |leader| && IdentityOf(checksum, log[end]) == IdentityOf(checksum, leader[end]))
  {
    var end := Start(m) + |m.entries|;
    forall i | 0 <= i < |log| && i < |leader| && IdentityOf(checksum, log[i]) == IdentityOf(checksum, leader[i])
      ensures log[..i + 1] == leader[..i + 1] && log[i] == leader[i]
    {
      assert log[..i + 1][i] == leader[..i + 1][i];
      assert end <= i ==> log[..i + 1][end] == leader[..i + 1][end];
    }
  }
}
