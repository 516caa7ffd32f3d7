/** Quorum arithmetic and the commit point a leader derives from its followers' progress. */
module Quorum {
  import opened Base

  /** Node identities; the source compares them as strings, only their total order matters here. */
  type NodeId = nat

  /** Membership: every known node, and whether it votes. */
  type Members = map<NodeId, bool>

  function Voters(members: Members): set<NodeId> {
    set n | n in members && members[n]
  }

  function VoterCount(members: Members): nat {
    if |Voters(members)| < 1 then 1 else |Voters(members)|
  }

  function QuorumSize(memberCount: nat): nat {
    memberCount / 2 + 1
  }

  function QuorumOf(members: Members): nat {
    QuorumSize(VoterCount(members))
  }

  ghost predicate IsQuorum(members: Members, q: set<NodeId>) {
    q <= Voters(members) && |q| >= QuorumOf(members)
  }

  lemma {:induction false} SubsetSize<T>(a: set<T>, b: set<T>)
    requires a <= b
    ensures |a| <= |b|
  {
    assert b == a + (b - a);
  }

  /** Two quorums of the same voters always share a node. */
  lemma {:induction false} QuorumsIntersect(members: Members, a: set<NodeId>, b: set<NodeId>) returns (shared: NodeId)
    requires IsQuorum(members, a) && IsQuorum(members, b)
    ensures shared in a && shared in b
  {
    if a * b == {} {
      assert |a + b| == |a| + |b|;
      SubsetSize(a + b, Voters(members));
      assert false;
    }
    shared :| shared in a * b;
  }

  // ---------------------------------------------------------------- reached sequences

  /** The voters whose match sequence is at least `c`. */
  ghost function Reaching(voters: set<NodeId>, matchOf: NodeId -> u64, c: nat): set<NodeId> {
    set v | v in voters && matchOf(v) >= c
  }

  /** `c` is the greatest sequence that at least `need` of the voters have reached. */
  ghost predicate IsReachedPoint(voters: set<NodeId>, matchOf: NodeId -> u64, need: nat, c: nat) {
    && |Reaching(voters, matchOf, c)| >= need
    && forall d: nat :: d > c ==> |Reaching(voters, matchOf, d)| < need
  }

  /** Search downwards from `from`; the specification of the sorted-vector lookup in the source. */
  ghost function ReachedPoint(voters: set<NodeId>, matchOf: NodeId -> u64, need: nat, from: u64): (c: u64)
    ensures c <= from
    decreases from
  {
    if from == 0 || |Reaching(voters, matchOf, from)| >= need then from
    else ReachedPoint(voters, matchOf, need, from - 1)
  }

  lemma {:induction false} ReachingShrinks(voters: set<NodeId>, matchOf: NodeId -> u64, c: nat, d: nat)
    requires c <= d
    ensures |Reaching(voters, matchOf, d)| <= |Reaching(voters, matchOf, c)|
  {
    SubsetSize(Reaching(voters, matchOf, d), Reaching(voters, matchOf, c));
  }

  lemma {:induction false} ReachedPointIsGreatest(voters: set<NodeId>, matchOf: NodeId -> u64, need: nat, from: u64)
    requires 0 < need <= |voters|
    requires forall d: nat :: d > from ==> |Reaching(voters, matchOf, d)| < need
    ensures IsReachedPoint(voters, matchOf, need, ReachedPoint(voters, matchOf, need, from))
    decreases from
  {
    if from == 0 {
      assert Reaching(voters, matchOf, 0) == voters;
    } else if |Reaching(voters, matchOf, from)| < need {
      ReachedPointIsGreatest(voters, matchOf, need, from - 1);
    }
  }

  lemma {:induction false} ReachedPointUnique(voters: set<NodeId>, matchOf: NodeId -> u64, need: nat, c: nat, d: nat)
    requires IsReachedPoint(voters, matchOf, need, c) && IsReachedPoint(voters, matchOf, need, d)
    ensures c == d
  {
  }

  // ---------------------------------------------------------------- the sorted vector

  /** How many elements of `s` are at least `c`. */
  ghost function CountFrom(s: seq<u64>, c: nat): nat {
    if s == [] then 0 else CountFrom(s[..|s| - 1], c) + (if s[|s| - 1] >= c then 1 else 0)
  }

  predicate Ascending(s: seq<u64>) {
    forall i, j :: 0 <= i < j < |s| ==> s[i] <= s[j]
  }

  lemma {:induction false} CountFromConcat(a: seq<u64>, b: seq<u64>, c: nat)
    ensures CountFrom(a + b, c) == CountFrom(a, c) + CountFrom(b, c)
  {
    if b == [] {
      assert a + b == a;
    } else {
      assert (a + b)[..|a + b| - 1] == a + b[..|b| - 1];
      CountFromConcat(a, b[..|b| - 1], c);
    }
  }

  lemma {:induction false} CountFromAll(s: seq<u64>, c: nat)
    ensures (forall i :: 0 <= i < |s| ==> s[i] >= c) ==> CountFrom(s, c) == |s|
    ensures (forall i :: 0 <= i < |s| ==> s[i] < c) ==> CountFrom(s, c) == 0
    ensures CountFrom(s, c) <= |s|
  {
    if s != [] {
      CountFromAll(s[..|s| - 1], c);
    }
  }

  lemma {:induction false} CountFromSplit(s: seq<u64>, k: nat, c: nat)
    requires k <= |s|
    ensures CountFrom(s, c) == CountFrom(s[..k], c) + CountFrom(s[k..], c)
  {
    assert s == s[..k] + s[k..];
    CountFromConcat(s[..k], s[k..], c);
  }

  lemma {:induction false} NthHighestReached(s: seq<u64>, need: nat)
    requires Ascending(s) && 0 < need <= |s|
    ensures CountFrom(s, s[|s| - need]) >= need
  {
    var k := |s| - need;
    CountFromSplit(s, k, s[k]);
    CountFromAll(s[k..], s[k]);
  }

  lemma {:induction false} NthHighestTight(s: seq<u64>, need: nat, d: nat)
    requires Ascending(s) && 0 < need <= |s| && d > s[|s| - need]
    ensures CountFrom(s, d) < need
  {
    var k := |s| - need + 1;
    CountFromSplit(s, k, d);
    assert forall i :: 0 <= i < k ==> s[..k][i] <= s[k - 1];
    CountFromAll(s[..k], d);
    CountFromAll(s[k..], d);
  }

  /** Insertion into an ascending vector, the step a sort repeats. */
  function Insert(s: seq<u64>, x: u64): (r: seq<u64>)
    requires Ascending(s)
    ensures Ascending(r)
    ensures |r| == |s| + 1
    ensures r[|s|] == if s == [] then x else Max(s[|s| - 1], x)
  {
    if s == [] || s[|s| - 1] <= x then s + [x]
    else Insert(s[..|s| - 1], x) + [s[|s| - 1]]
  }

  lemma {:induction false} InsertCounts(s: seq<u64>, x: u64, c: nat)
    requires Ascending(s)
    ensures CountFrom(Insert(s, x), c) == CountFrom(s, c) + (if x >= c then 1 else 0)
  {
    if s == [] || s[|s| - 1] <= x {
      assert (s + [x])[..|s|] == s;
    } else {
      var r := Insert(s[..|s| - 1], x) + [s[|s| - 1]];
      assert r[..|r| - 1] == Insert(s[..|s| - 1], x);
      InsertCounts(s[..|s| - 1], x, c);
    }
  }

  /** The sorted vector of match sequences. */
  method SortAscending(matches: seq<u64>) returns (sorted: seq<u64>)
    ensures Ascending(sorted) && |sorted| == |matches|
    ensures forall c: nat :: CountFrom(sorted, c) == CountFrom(matches, c)
  {
    sorted := [];
    var i := 0;
    while i < |matches|
      invariant i <= |matches| && |sorted| == i && Ascending(sorted)
      invariant forall c: nat :: CountFrom(sorted, c) == CountFrom(matches[..i], c)
    {
      assert matches[..i + 1][..i] == matches[..i];
      forall c: nat ensures CountFrom(Insert(sorted, matches[i]), c) == CountFrom(matches[..i + 1], c) {
        InsertCounts(sorted, matches[i], c);
      }
      sorted := Insert(sorted, matches[i]);
      i := i + 1;
    }
    assert matches[..i] == matches;
  }

  /** The voters' match sequences in some order: each threshold is reached exactly as often as by the voters. */
  method VoterMatchSequences(members: Members, matchOf: NodeId -> u64) returns (matches: seq<u64>)
    ensures |matches| == |Voters(members)|
    ensures forall c: nat :: CountFrom(matches, c) == |Reaching(Voters(members), matchOf, c)|
  {
    matches := [];
    var todo := Voters(members);
    ghost var done: set<NodeId> := {};
    assert forall c: nat :: Reaching(done, matchOf, c) == {};
    while todo != {}
      invariant done !! todo && done + todo == Voters(members)
      invariant |matches| == |done|
      invariant forall c: nat :: CountFrom(matches, c) == |Reaching(done, matchOf, c)|
      decreases todo
    {
      var v :| v in todo;
      forall c: nat
        ensures CountFrom(matches + [matchOf(v)], c) == |Reaching(done + {v}, matchOf, c)|
      {
        assert (matches + [matchOf(v)])[..|matches|] == matches;
        if matchOf(v) >= c {
          assert Reaching(done + {v}, matchOf, c) == Reaching(done, matchOf, c) + {v};
        } else {
          assert Reaching(done + {v}, matchOf, c) == Reaching(done, matchOf, c);
        }
      }
      matches := matches + [matchOf(v)];
      done := done + {v};
      todo := todo - {v};
    }
    assert done == Voters(members);
  }

  /** `nth_highest_voter_match`: exactly the greatest sequence a quorum of voters has reached. */
  method NthHighestVoterMatch(members: Members, matchOf: NodeId -> u64) returns (c: u64)
    ensures Voters(members) != {} ==> IsReachedPoint(Voters(members), matchOf, QuorumOf(members), c)
    ensures Voters(members) == {} ==> c == 0
  {
    var matches := VoterMatchSequences(members, matchOf);
    if |matches| == 0 {
      return 0;
    }
    var sorted := SortAscending(matches);
    var need := QuorumOf(members);
    c := sorted[|sorted| - need];
    NthHighestReached(sorted, need);
    forall d: nat | d > c ensures |Reaching(Voters(members), matchOf, d)| < need {
      NthHighestTight(sorted, need, d);
    }
  }

  /** `min_voter_match`: exactly the greatest sequence every voter has reached. */
  method MinVoterMatch(members: Members, matchOf: NodeId -> u64) returns (c: u64)
    ensures Voters(members) != {} ==> IsReachedPoint(Voters(members), matchOf, |Voters(members)|, c)
    ensures Voters(members) == {} ==> c == 0
  {
    var matches := VoterMatchSequences(members, matchOf);
    if |matches| == 0 {
      return 0;
    }
    c := matches[0];
    var i := 1;
    while i < |matches|
      invariant 1 <= i <= |matches|
      invariant exists k :: 0 <= k < i && matches[k] == c
      invariant forall k :: 0 <= k < i ==> c <= matches[k]
    {
      if matches[i] < c {
        c := matches[i];
      }
      i := i + 1;
    }
    CountFromAll(matches, c);
    forall d: nat | d > c ensures |Reaching(Voters(members), matchOf, d)| < |matches| {
      BelowMissesOne(matches, d);
    }
  }

  lemma {:induction false} BelowMissesOne(s: seq<u64>, d: nat)
    requires exists k :: 0 <= k < |s| && s[k] < d
    ensures CountFrom(s, d) < |s|
  {
    var k :| 0 <= k < |s| && s[k] < d;
    CountFromSplit(s, k + 1, d);
    CountFromAll(s[k + 1..], d);
    CountFromAll(s[..k], d);
    assert s[..k + 1][..k] == s[..k];
  }
}
