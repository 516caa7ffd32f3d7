/**
  A leader and one follower, while nobody writes: the leader sends a page from where it believes the follower is,
  backs off when that is refused, and moves on when it is accepted.
 */
module CatchUp {
  import opened Base
  import opened Keyspace
  import opened LogCache
  import opened Suffix
  import opened Append
  import R = Replication

  /** The leader's log, whose first `kept` entries it has only in its snapshot, and how many entries it sends. */
  datatype Sender = Sender(checksum: Checksum, log: seq<Entry>, kept: nat, page: nat, term: u64)

  ghost predicate GoodSender(l: Sender) {
    Numbered(l.log, 0) && |l.log| < U64_MAX && l.kept <= |l.log|
  }

  /** The entry before is not in the leader's cache: it sends its snapshot instead. */
  predicate SendsSnapshot(l: Sender, next: u64) {
    next > 1 && !(l.kept < next - 1 <= |l.log|)
  }

  /** The request to a follower whose next entry should be `next`: the entry before it, and a page. */
  function RequestAt(l: Sender, next: u64): AppendRequest
    requires 1 <= next && l.kept <= |l.log| && !SendsSnapshot(l, next)
  {
    var prev := next - 1;
    var from := if prev < l.kept then l.kept else prev;
    var to := if from + l.page < |l.log| then from + l.page else |l.log|;
    AppendRequest(prev, if prev == 0 then None else Some(IdentityOf(l.checksum, l.log[prev - 1])), l.log[from..to])
  }

  lemma {:induction false} RequestCut(l: Sender, next: u64)
    requires GoodSender(l) && 1 <= next && !SendsSnapshot(l, next)
    ensures CutFrom(l.checksum, RequestAt(l, next), l.log)
    ensures next > 1 || l.kept == 0 ==> Start(RequestAt(l, next)) == next - 1
  {
    var prev := next - 1;
    var from := if prev < l.kept then l.kept else prev;
    var to := if from + l.page < |l.log| then from + l.page else |l.log|;
    PageCut(l, prev, from, to);
  }

  lemma {:induction false} PageCut(l: Sender, prev: u64, from: nat, to: nat)
    requires GoodSender(l) && prev <= from <= to <= |l.log| && (prev == from || prev == 0)
    ensures var known := if prev == 0 then None else Some(IdentityOf(l.checksum, l.log[prev - 1]));
            var m := AppendRequest(prev, known, l.log[from..to]);
            CutFrom(l.checksum, m, l.log) && Start(m) == if from == to then prev else from
  {
    if from < to {
      assert l.log[from..to][0] == l.log[from];
    }
    assert |l.log[from..to]| == to - from && l.log[prev..prev] == [];
  }

  // ---------------------------------------------------------------- backing off

  /** A follower's log, whose first `retained` entries it can no longer look up, refuses the request. */
  ghost predicate Refuses(l: Sender, log: seq<Entry>, retained: nat, next: u64)
    requires l.kept <= |l.log|
  {
    1 < next && !SendsSnapshot(l, next) && Refused(l.checksum, log, retained, RequestAt(l, next))
  }

  /** What the leader knows after one refusal. */
  ghost function AfterRefusal(l: Sender, log: seq<Entry>, retained: nat, p: R.Progress): (p': R.Progress)
    requires l.kept <= |l.log| && |log| <= U64_MAX && Refuses(l, log, retained, p.nextSequence)
    ensures p'.matchIndex == p.matchIndex && p'.nextSequence == p.nextSequence - 1
  {
    var named := Hint(l.checksum, log, retained, RequestAt(l, p.nextSequence));
    R.RefusalBacksOff(map[0 := p], 0, named, l.term);
    NamesOneBefore(l, log, retained, p.nextSequence);
    R.NextProgress(Some(p), false, named, l.term)
  }

  /** A refusal of an entry the follower does not have names the sequence before it. */
  lemma {:induction false} NamesOneBefore(l: Sender, log: seq<Entry>, retained: nat, next: u64)
    requires l.kept <= |l.log| && |log| <= U64_MAX && Refuses(l, log, retained, next)
    ensures Hint(l.checksum, log, retained, RequestAt(l, next)) == next - 2
  {
  }

  /** Where a run of refusals ends. */
  ghost function Resumed(l: Sender, log: seq<Entry>, retained: nat, p: R.Progress): R.Progress
    requires l.kept <= |l.log| && |log| <= U64_MAX
    decreases p.nextSequence
  {
    if Refuses(l, log, retained, p.nextSequence)
    then Resumed(l, log, retained, AfterRefusal(l, log, retained, p)) else p
  }

  /** How many refusals that takes. */
  ghost function Refusals(l: Sender, log: seq<Entry>, retained: nat, p: R.Progress): nat
    requires l.kept <= |l.log| && |log| <= U64_MAX
    decreases p.nextSequence
  {
    if Refuses(l, log, retained, p.nextSequence)
    then 1 + Refusals(l, log, retained, AfterRefusal(l, log, retained, p)) else 0
  }

  /** The leader can go on from `q`: the start, an entry it no longer has, or one the follower can look up and has. */
  ghost predicate GoesOn(l: Sender, log: seq<Entry>, retained: nat, q: nat) {
    || q == 0 || q <= l.kept || q > |l.log|
    || (retained < q <= |log| && IdentityOf(l.checksum, log[q - 1]) == IdentityOf(l.checksum, l.log[q - 1]))
  }

  lemma {:induction false} RefusesExactly(l: Sender, log: seq<Entry>, retained: nat, next: u64)
    requires l.kept <= |l.log| && 1 <= next
    ensures Refuses(l, log, retained, next) <==> !GoesOn(l, log, retained, next - 1)
  {
  }

  /**
    Backing off from `next`, the leader stops right after the last place before it from which it can go on, and has
    been refused once for each place in between: at most `next - 1` times.
   */
  lemma {:induction false} ResumesExactly(l: Sender, log: seq<Entry>, retained: nat, p: R.Progress)
    requires l.kept <= |l.log| && |log| <= U64_MAX && 1 <= p.nextSequence
    ensures var p' := Resumed(l, log, retained, p);
            && 1 <= p'.nextSequence <= p.nextSequence && p'.matchIndex == p.matchIndex
            && GoesOn(l, log, retained, p'.nextSequence - 1)
            && (forall q :: p'.nextSequence <= q < p.nextSequence ==> !GoesOn(l, log, retained, q))
            && Refusals(l, log, retained, p) == p.nextSequence - p'.nextSequence <= p.nextSequence - 1
    decreases p.nextSequence
  {
    hide GoesOn, Refuses;
    RefusesExactly(l, log, retained, p.nextSequence);
    if Refuses(l, log, retained, p.nextSequence) {
      AtLeastTwo(l, log, retained, p.nextSequence);
      ResumesExactly(l, log, retained, AfterRefusal(l, log, retained, p));
    }
  }

  lemma {:induction false} AtLeastTwo(l: Sender, log: seq<Entry>, retained: nat, next: u64)
    requires l.kept <= |l.log| && Refuses(l, log, retained, next)
    ensures next >= 2
  {
  }

  /** How many entries two logs have in common. */
  ghost function InCommon(a: seq<Entry>, b: seq<Entry>): (n: nat)
    ensures n <= |a| && n <= |b| && a[..n] == b[..n]
    ensures n < |a| && n < |b| ==> a[n] != b[n]
  {
    if a == [] || b == [] || a[0] != b[0] then 0
    else
      var n := 1 + InCommon(a[1..], b[1..]);
      assert a[..n] == [a[0]] + a[1..][..n - 1] && b[..n] == [b[0]] + b[1..][..n - 1];
      n
  }

  lemma {:induction false} CommonIsGreatest(a: seq<Entry>, b: seq<Entry>, q: nat)
    requires q <= |a| && q <= |b| && a[..q] == b[..q]
    ensures q <= InCommon(a, b)
    decreases q
  {
    if q > 0 {
      assert a[0] == a[..q][0] && b[0] == b[..q][0];
      assert a[1..][..q - 1] == a[..q][1..] && b[1..][..q - 1] == b[..q][1..];
      CommonIsGreatest(a[1..], b[1..], q - 1);
    }
  }

  lemma {:induction false} CommonExactly(checksum: Checksum, a: seq<Entry>, b: seq<Entry>, q: nat)
    requires Matching(checksum, a, b) && 0 < q <= |a| && q <= |b|
    ensures IdentityOf(checksum, a[q - 1]) == IdentityOf(checksum, b[q - 1]) <==> q <= InCommon(a, b)
  {
    var n := InCommon(a, b);
    assert q <= n ==> a[..n][q - 1] == b[..n][q - 1];
    if IdentityOf(checksum, a[q - 1]) == IdentityOf(checksum, b[q - 1]) {
      CommonIsGreatest(a, b, q);
    }
  }

  /**
    When the logs match, and leader and follower can both look up the last entry they share, the leader backs off
    exactly to it.
   */
  lemma {:induction false} ResumesAtLastShared(l: Sender, log: seq<Entry>, retained: nat, p: R.Progress)
    requires GoodSender(l) && |log| <= U64_MAX && Matching(l.checksum, log, l.log)
    requires var n := InCommon(log, l.log); retained < n && l.kept < n < p.nextSequence <= |l.log| + 1
    ensures Resumed(l, log, retained, p).nextSequence == InCommon(log, l.log) + 1
    ensures Refusals(l, log, retained, p) == p.nextSequence - 1 - InCommon(log, l.log)
  {
    hide Matching;
    var n, p' := InCommon(log, l.log), Resumed(l, log, retained, p);
    ResumesExactly(l, log, retained, p);
    CommonExactly(l.checksum, log, l.log, n);
    assert GoesOn(l, log, retained, n);
    var q := p'.nextSequence - 1;
    if q > n {
      if q <= |log| {
        CommonExactly(l.checksum, log, l.log, q);
      }
    }
  }

  // ---------------------------------------------------------------- catching up

  /** A follower: its log, the entries it can no longer look up, its snapshot's sequence, and what its leader knows. */
  datatype Peer = Peer(log: seq<Entry>, retained: nat, base: nat, progress: R.Progress)

  ghost predicate Ready(l: Sender, x: Peer) {
    && GoodSender(l) && l.kept == 0 && l.page > 0
    && WholeLog(x.log, x.retained) && x.retained <= x.base <= |x.log| && Matching(l.checksum, x.log, l.log)
    && 1 <= x.progress.nextSequence <= |l.log| + 1 && x.progress.matchIndex <= |l.log|
  }

  /** Where an append that is not refused cuts the follower's log. */
  ghost function CutPoint(l: Sender, x: Peer): nat
    requires Ready(l, x)
  {
    x.progress.nextSequence - 1
    + Agreeing(l.checksum, x.log, x.retained, RequestAt(l, x.progress.nextSequence).entries)
  }

  /** The follower would have to replace entries that are in its snapshot, which it cannot. */
  ghost predicate Fails(l: Sender, x: Peer)
    requires Ready(l, x)
  {
    CutPoint(l, x) < x.base && CutPoint(l, x) != |x.log|
  }

  /** A replacement by consecutive entries passes the engine's checks exactly when it spares the snapshot. */
  lemma {:induction false} ReplaceAllowed(checksum: Checksum, log: seq<Entry>, retained: nat, base: nat, prefix: u64,
                                          entries: seq<Entry>)
    requires WholeLog(log, retained) && retained <= base <= |log| && retained <= prefix <= |log|
    requires Numbered(entries, prefix)
    ensures Accepts(checksum, log[retained..], base, prefix, entries) <==> base <= prefix
  {
    hide Above;
    AllAbove(entries, prefix);
    ReplacementExactly(checksum, log, retained, base, prefix, entries);
  }

  /** One request and its answer; `Fails` is the error after which nothing has changed on either side. */
  ghost function Round(l: Sender, x: Peer): Peer {
    if !Ready(l, x) then x
    else if Refuses(l, x.log, x.retained, x.progress.nextSequence) then
      x.(progress := AfterRefusal(l, x.log, x.retained, x.progress))
    else if Fails(l, x) then x
    else Accepted(l, x)
  }

  ghost function Accepted(l: Sender, x: Peer): Peer
    requires Ready(l, x)
  {
    RequestCut(l, x.progress.nextSequence);
    var m := RequestAt(l, x.progress.nextSequence);
    CutOrdered(l.checksum, m, l.log);
    var log := Outcome(l.checksum, x.log, x.retained, m);
    if log.None? || |log.value| > U64_MAX then x
    else x.(log := log.value, progress := R.NextProgress(Some(x.progress), true, |log.value|, l.term))
  }

  ghost function Rounds(l: Sender, x: Peer, k: nat): Peer
    decreases k
  {
    if k == 0 then x else Rounds(l, Round(l, x), k - 1)
  }

  /** The follower has the leader's log and the leader knows where it is. */
  ghost predicate CaughtUp(l: Sender, x: Peer) {
    x.log == l.log && x.progress.nextSequence == |l.log| + 1
  }

  /** The follower's log begins the leader's, it can look up its last entry, and the leader is not behind. */
  ghost predicate OnTheWay(l: Sender, x: Peer) {
    && Ready(l, x) && x.log <= l.log && |x.log| < x.progress.nextSequence
    && (|x.log| == 0 || x.retained < |x.log|)
  }

  lemma {:induction false} PrefixMatches(checksum: Checksum, log: seq<Entry>, n: nat)
    requires n <= |log|
    ensures Matching(checksum, log[..n], log)
  {
  }

  /** Where the page for this follower ends. */
  ghost function PageEnd(l: Sender, next: u64): nat
    requires 1 <= next <= |l.log| + 1
  {
    if next - 1 + l.page < |l.log| then next - 1 + l.page else |l.log|
  }

  lemma {:induction false} PageRequest(l: Sender, next: u64)
    requires GoodSender(l) && l.kept == 0 && 1 <= next <= |l.log| + 1
    ensures !SendsSnapshot(l, next)
    ensures var m := RequestAt(l, next); m.prev == next - 1 == Start(m) && |m.entries| == PageEnd(l, next) - (next - 1)
  {
    hide Numbered;
    RequestCut(l, next);
  }

  /** The log an accepted page leaves. */
  lemma {:induction false} AcceptedLog(l: Sender, x: Peer)
    requires Ready(l, x) && !Refuses(l, x.log, x.retained, x.progress.nextSequence)
    ensures var m := RequestAt(l, x.progress.nextSequence);
            && Ordered(m) && CutPoint(l, x) <= |x.log|
            && Outcome(l.checksum, x.log, x.retained, m) == Some(l.log[..PageEnd(l, x.progress.nextSequence)])
  {
    hide Matching, Agreeing, Ordered, WholeLog, CutFrom, KnownAt, SharedAt, Outcome, Numbered, Refuses, RequestAt;
    var next := x.progress.nextSequence;
    var m := RequestAt(l, next);
    RequestCut(l, next);
    PageRequest(l, next);
    NotRefused(l, x);
    CheckedIsShared(l.checksum, x.log, x.retained, m, l.log);
    JoinedIsLeaderPrefix(l.checksum, x.log, x.retained, m, l.log);
    AgreedPrefix(l.checksum, x.log, x.retained, m, l.log);
  }

  /** An accepted page that does not fail puts the follower on its way, with the page's entries. */
  lemma {:induction false} AcceptedPage(l: Sender, x: Peer)
    requires Ready(l, x) && !Refuses(l, x.log, x.retained, x.progress.nextSequence) && !Fails(l, x)
    ensures OnTheWay(l, Accepted(l, x)) && Accepted(l, x).log == l.log[..PageEnd(l, x.progress.nextSequence)]
  {
    hide Matching, Agreeing, Ordered, WholeLog, Outcome, Numbered, Refuses, RequestAt, Fails, CutPoint;
    var next := x.progress.nextSequence;
    AcceptedLog(l, x);
    PageRequest(l, next);
    NotRefused(l, x);
    var to := PageEnd(l, next);
    PrefixMatches(l.checksum, l.log, to);
    PrefixWhole(l, x, to);
    R.AcceptanceCounts(map[0 := x.progress], 0, to, l.term);
  }

  lemma {:induction false} ReadyParts(l: Sender, x: Peer)
    requires Ready(l, x)
    ensures WholeLog(x.log, x.retained) && |x.log| <= U64_MAX && l.kept <= |l.log|
  {
  }

  lemma {:induction false} NotRefused(l: Sender, x: Peer)
    requires Ready(l, x) && !Refuses(l, x.log, x.retained, x.progress.nextSequence)
    ensures var m := RequestAt(l, x.progress.nextSequence);
            && KnownAt(l.checksum, x.log, x.retained, m.prev) == m.prevIdentity
            && (m.prev == 0 || x.retained < m.prev)
  {
  }

  /** What the follower can look up, and its snapshot, stay within the log a page leaves. */
  lemma {:induction false} PrefixWhole(l: Sender, x: Peer, to: nat)
    requires Ready(l, x) && to <= |l.log| && !Fails(l, x)
    requires var m := RequestAt(l, x.progress.nextSequence);
             && to == x.progress.nextSequence - 1 + |m.entries|
             && (m.prev == 0 || x.retained < m.prev)
             && CutPoint(l, x) <= |x.log|
    ensures WholeLog(l.log[..to], x.retained) && x.base <= to
    ensures to == 0 || x.retained < to
  {
    hide Matching;
    var m := RequestAt(l, x.progress.nextSequence);
    if m.prev == 0 && x.retained > 0 {
      FirstUnknown(l, x);
    }
  }

  /** A follower that has pruned cannot look up the first entry. */
  lemma {:induction false} FirstUnknown(l: Sender, x: Peer)
    requires Ready(l, x) && x.progress.nextSequence == 1 && x.retained > 0
    ensures CutPoint(l, x) == 0 && Fails(l, x)
  {
    hide Matching;
    var m := RequestAt(l, 1);
    if m.entries != [] {
      assert m.entries[0] == l.log[0] && l.log[0].sequence == 1;
    }
  }

  lemma {:induction false} RoundsSplit(l: Sender, x: Peer, j: nat, k: nat)
    ensures Rounds(l, x, j + k) == Rounds(l, Rounds(l, x, j), k)
    decreases j
  {
    hide Round;
    if j > 0 {
      RoundsSplit(l, Round(l, x), j - 1, k);
    }
  }

  /** On its way, a follower catches up. */
  lemma {:induction false} Arrives(l: Sender, x: Peer) returns (k: nat)
    requires OnTheWay(l, x)
    ensures CaughtUp(l, Rounds(l, x, k))
    decreases |l.log| - |x.log|, x.progress.nextSequence
  {
    hide Matching, Refuses, Fails, AfterRefusal, Accepted;
    if |x.log| == |l.log| {
      k := 0;
      assert x.log == l.log;
    } else {
      var next := Round(l, x);
      WayRound(l, x);
      var rest := Arrives(l, next);
      k := 1 + rest;
    }
  }

  lemma {:induction false} WayRound(l: Sender, x: Peer)
    requires OnTheWay(l, x) && |x.log| < |l.log|
    ensures var y := Round(l, x);
            && OnTheWay(l, y)
            && (|y.log| > |x.log| || (y.log == x.log && y.progress.nextSequence < x.progress.nextSequence))
  {
    hide Matching, AfterRefusal, Accepted;
    var next := x.progress.nextSequence;
    RefusesExactly(l, x.log, x.retained, next);
    if Refuses(l, x.log, x.retained, next) {
      assert GoesOn(l, x.log, x.retained, |x.log|);
      assert AfterRefusal(l, x.log, x.retained, x.progress).nextSequence == next - 1;
    } else {
      WayAccepts(l, x);
      AcceptedPage(l, x);
    }
  }

  /** On the way, an append that is not refused starts where the follower's log ends. */
  lemma {:induction false} WayAccepts(l: Sender, x: Peer)
    requires OnTheWay(l, x) && !Refuses(l, x.log, x.retained, x.progress.nextSequence)
    ensures x.progress.nextSequence == |x.log| + 1 && !Fails(l, x)
  {
    hide Matching, Agreeing;
    RefusesExactly(l, x.log, x.retained, x.progress.nextSequence);
    var m := RequestAt(l, x.progress.nextSequence);
    RequestCut(l, x.progress.nextSequence);
    AgreedBounds(l, x, m);
  }

  lemma {:induction false} AgreedBounds(l: Sender, x: Peer, m: AppendRequest)
    requires WholeLog(x.log, x.retained) && m.prev == |x.log| && CutFrom(l.checksum, m, l.log) && Start(m) == m.prev
    ensures Agreeing(l.checksum, x.log, x.retained, m.entries) == 0
  {
    if m.entries != [] {
      assert m.entries[0] == l.log[m.prev] && l.log[m.prev].sequence == m.prev + 1;
    }
  }

  /** The leader's own record once it has backed off as far as it must. */
  ghost function AtResume(l: Sender, x: Peer): Peer
    requires Ready(l, x)
  {
    x.(progress := Resumed(l, x.log, x.retained, x.progress))
  }

  lemma {:induction false} BacksOff(l: Sender, x: Peer)
    requires Ready(l, x)
    ensures Ready(l, AtResume(l, x)) && !Refuses(l, x.log, x.retained, AtResume(l, x).progress.nextSequence)
    ensures Rounds(l, x, Refusals(l, x.log, x.retained, x.progress)) == AtResume(l, x)
    decreases x.progress.nextSequence
  {
    hide Matching, Refuses, AfterRefusal;
    if Refuses(l, x.log, x.retained, x.progress.nextSequence) {
      AtLeastTwo(l, x.log, x.retained, x.progress.nextSequence);
      BacksOff(l, Round(l, x));
    }
  }

  /** Every round up to the resume point leaves the log alone. */
  lemma {:induction false} StuckForever(l: Sender, x: Peer, k: nat)
    requires Ready(l, x) && Ready(l, AtResume(l, x)) && Fails(l, AtResume(l, x))
    requires !Refuses(l, x.log, x.retained, AtResume(l, x).progress.nextSequence)
    ensures Rounds(l, x, k).log == x.log
    decreases k
  {
    hide Matching, Refuses, AfterRefusal, Fails;
    if k > 0 {
      if Refuses(l, x.log, x.retained, x.progress.nextSequence) {
        AtLeastTwo(l, x.log, x.retained, x.progress.nextSequence);
      }
      StuckForever(l, Round(l, x), k - 1);
    }
  }

  /**
    With nobody writing and nothing lost, a follower whose log differs from its leader's gets it, in some number of
    rounds, exactly when the append it is offered once the leader has backed off does not reach into its snapshot.
   */
  lemma {:induction false} CatchesUpExactly(l: Sender, x: Peer)
    requires Ready(l, x) && x.log != l.log
    ensures Ready(l, AtResume(l, x))
    ensures (exists k: nat :: Rounds(l, x, k).log == l.log) <==> !Fails(l, AtResume(l, x))
  {
    hide Ready, Refuses, Fails, Rounds, Accepted;
    BacksOff(l, x);
    ReadyParts(l, x);
    var n, y := Refusals(l, x.log, x.retained, x.progress), AtResume(l, x);
    if Fails(l, y) {
      forall k: nat ensures Rounds(l, x, k).log != l.log {
        StuckForever(l, x, k);
      }
    } else {
      AcceptedPage(l, y);
      var k := Arrives(l, Accepted(l, y));
      OneRound(l, y, k);
      RoundsSplit(l, x, n, k + 1);
      assert CaughtUp(l, Rounds(l, x, n + (k + 1)));
    }
  }

  /** A new leader, which starts every follower at one, never reaches a follower that has pruned its log. */
  lemma {:induction false} PrunedFollowerStuck(l: Sender, x: Peer, k: nat)
    requires Ready(l, x) && x.progress.nextSequence == 1 && x.retained > 0
    ensures Rounds(l, x, k) == x
    decreases k
  {
    hide Ready, Fails;
    if k > 0 {
      FirstUnknown(l, x);
      PrunedFollowerStuck(l, x, k - 1);
    }
  }

  lemma {:induction false} OneRound(l: Sender, y: Peer, k: nat)
    requires Ready(l, y) && !Refuses(l, y.log, y.retained, y.progress.nextSequence) && !Fails(l, y)
    ensures Rounds(l, y, k + 1) == Rounds(l, Accepted(l, y), k)
  {
    hide Ready, Refuses, Fails, Accepted;
  }
}
