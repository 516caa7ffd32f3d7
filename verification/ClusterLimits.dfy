/**
  The one place where election safety ends: the term counter saturates at `u64::MAX`, and there a node that has voted
  can vote again.
 */
module ClusterLimits {
  import opened Base
  import opened Quorum
  import opened Replication
  import opened Cluster

  lemma {:induction false} RunThen(g: Group, c: Cluster, events: seq<Event>, c': Cluster, e: Event)
    requires IsRun(g, c, events, c') && Enabled(g, c', e)
    ensures IsRun(g, c, events + [e], After(g, c', e))
    decreases |events|
  {
    if events == [] {
      assert [e][1..] == [];
      assert IsRun(g, After(g, c, e), [], After(g, c, e));
    } else {
      assert (events + [e])[1..] == events[1..] + [e];
      RunThen(g, After(g, c, events[0]), events[1..], c', e);
    }
  }

  lemma {:induction false} ReachableThen(g: Group, c: Cluster, e: Event)
    requires Reachable(g, c) && Enabled(g, c, e)
    ensures Reachable(g, After(g, c, e))
  {
    var events :| IsRun(g, Init(g), events, c);
    RunThen(g, Init(g), events, c, e);
  }

  ghost const TRIO: Members := map[0 := true, 1 := true, 2 := true]

  ghost const THREE: Group := Group(TRIO, map i | i in TRIO :: Config(i, Follower, Replica, TRIO, true))

  lemma {:induction false} ThreeValid()
    ensures ValidGroup(THREE) && Voters(TRIO) == {0, 1, 2} && QuorumOf(TRIO) == 2
    ensures THREE.configs.Keys == {0, 1, 2}
    ensures forall i :: i in THREE.configs ==> THREE.configs[i] == Config(i, Follower, Replica, TRIO, true)
  {
    assert Voters(TRIO) == {0, 1, 2};
  }

  ghost const FRESH: NodeState := NodeState(Follower, 0, None, None, 0, None, 0, 0, map[], TRIO, None)

  ghost predicate Trio(c: Cluster) {
    c.nodes.Keys == {0, 1, 2} && c.held.Keys == {0, 1, 2}
  }

  /** A node with an empty log that knows no leader. */
  ghost predicate Blank(s: NodeState) {
    s.members == TRIO && s.applied == 0 && s.appliedTerm == None && s.leader == None
  }

  /** Node 0 has stood for election in every term up to `n`; nobody else has moved. */
  ghost predicate Climbed(c: Cluster, n: u64) {
    && Trio(c)
    && c.nodes[1] == FRESH && c.nodes[2] == FRESH
    && c.nodes[0].term == n && Blank(c.nodes[0])
    && (n > 0 ==> c.nodes[0].role == Candidate && VoteAsked(VoteRequest(n, 0, 0, None, false)) in c.msgs)
  }

  lemma {:induction false} InitClimbed()
    ensures Climbed(Init(THREE), 0)
  {
    ThreeValid();
    assert Start(THREE.configs[0], None) == FRESH;
    assert Start(THREE.configs[1], None) == FRESH;
    assert Start(THREE.configs[2], None) == FRESH;
  }

  ghost function Stand(i: NodeId): Event {
    Event(i, BeginElectionStep(Written))
  }

  ghost function Vote(v: NodeId, cand: NodeId, term: u64): Event {
    Event(v, VoteStep(VoteRequest(term, cand, 0, None, false), false, Written, Written))
  }

  /** The other nodes and the history after an event. */
  ghost predicate Moved(c: Cluster, i: NodeId, c': Cluster) {
    && Trio(c) && Trio(c') && c.msgs <= c'.msgs
    && (forall j :: j in {0, 1, 2} && j != i ==> c'.nodes[j] == c.nodes[j])
    && (forall w :: w in c.wins ==> w in c'.wins)
  }

  /** An event moves its own node, adds what it sends and forgets no winner. */
  lemma {:induction false} EventMoves(c: Cluster, e: Event)
    requires Trio(c) && Enabled(THREE, c, e) && e.node in {0, 1, 2}
    ensures var c' := After(THREE, c, e);
            && Moved(c, e.node, c') && c'.nodes[e.node] == NodeAfter(THREE, c, e)
            && SentBy(THREE, c, e) <= c'.msgs && c'.wins == WinsAfter(THREE, c, e)
  {
    hide NodeAfter, SentBy, Enabled, GrantsOf;
  }

  lemma {:induction false} StandEffect(c: Cluster, i: NodeId)
    requires Trio(c) && i in {0, 1, 2} && Blank(c.nodes[i])
    ensures Enabled(THREE, c, Stand(i)) && Moved(c, i, After(THREE, c, Stand(i)))
    ensures var c', t := After(THREE, c, Stand(i)), SatAdd(c.nodes[i].term, 1);
            && c'.nodes[i].role == Candidate && c'.nodes[i].term == t && Blank(c'.nodes[i])
            && VoteAsked(VoteRequest(t, i, 0, None, false)) in c'.msgs
  {
    hide After;
    hide HandleVote, FinalizeElection, HandleHeartbeat, ObserveStatus, RegisterAck, RecordAppend, SetApplied, Start;
    ThreeValid();
    EventMoves(c, Stand(i));
  }

  /** A blank node grants the first request it sees in a term. */
  lemma {:induction false} BlankGrants(config: Config, s: NodeState, req: VoteRequest)
    requires Blank(s) && !req.prevote && req.candidate in TRIO
    requires s.term < req.term || (s.term == req.term && s.votedFor == None)
    ensures var h := HandleVote(config, s, req, false, Written, Written);
            h.reply == Some(VoteReply(req.term, true)) && h.state.term == req.term
            && (req.lastIndex == 0 && req.lastTerm == None ==> Blank(h.state))
  {
    assert IsVotingMember(TRIO, req.candidate);
    var a := AdoptTerm(s, req.term, Written);
    assert UpToDate(a, req);
    assert GrantsVote(a, req, false);
  }

  lemma {:induction false} VoteEffect(c: Cluster, v: NodeId, cand: NodeId, term: u64)
    requires Trio(c) && v in {0, 1, 2} && cand in {0, 1, 2} && Blank(c.nodes[v])
    requires VoteAsked(VoteRequest(term, cand, 0, None, false)) in c.msgs
    requires c.nodes[v].term < term || (c.nodes[v].term == term && c.nodes[v].votedFor == None)
    ensures Enabled(THREE, c, Vote(v, cand, term))
    ensures var e := Vote(v, cand, term);
            && SentBy(THREE, c, e) == {TermSeen(term), VoteGranted(v, cand, term)}
            && NodeAfter(THREE, c, e).term == term && Blank(NodeAfter(THREE, c, e))
  {
    hide HandleVote, FinalizeElection, HandleHeartbeat, ObserveStatus, RegisterAck, RecordAppend, SetApplied, Start;
    ThreeValid();
    BlankGrants(THREE.configs[v], c.nodes[v], VoteRequest(term, cand, 0, None, false));
  }

  lemma {:induction false} FinalizeEffect(c: Cluster, i: NodeId, v: NodeId, term: u64)
    requires Trio(c) && i in {0, 1, 2} && v in {0, 1, 2} && i != v
    requires VoteGranted(v, i, term) in c.msgs
    requires c.nodes[i].role == Candidate && c.nodes[i].term == term && c.nodes[i].members == TRIO
    ensures var e := Event(i, FinalizeStep(term, {v}, Written));
            Enabled(THREE, c, e) && WinsElection(THREE, c, e)
  {
    ThreeValid();
    assert |{v}| == 1;
    var h := FinalizeElection(THREE.configs[i], c.nodes[i], term, 2, VoterCount(TRIO), Written);
    assert h.state.role == Leader;
  }

  lemma {:induction false} WinRecorded(c: Cluster, e: Event)
    requires Trio(c) && Enabled(THREE, c, e) && WinsElection(THREE, c, e)
    ensures Won(After(THREE, c, e), e.step.term, e.node) && Moved(c, e.node, After(THREE, c, e))
  {
  }

  lemma {:induction false} ObserveEffect(c: Cluster, i: NodeId, term: u64)
    requires Trio(c) && i in {0, 1, 2} && TermSeen(term) in c.msgs && Blank(c.nodes[i]) && c.nodes[i].term < term
    ensures var e := Event(i, ObserveTermStep(term, Written));
            Enabled(THREE, c, e) && Moved(c, i, After(THREE, c, e)) && After(THREE, c, e).wins == c.wins
            && After(THREE, c, e).nodes[i] == ObserveTerm(c.nodes[i], term, Written)
  {
    hide After, ObserveTerm;
    hide HandleVote, FinalizeElection, HandleHeartbeat, ObserveStatus, RegisterAck, RecordAppend, SetApplied, Start;
    ThreeValid();
    EventMoves(c, Event(i, ObserveTermStep(term, Written)));
  }

  lemma {:induction false} Climb(n: u64) returns (c: Cluster)
    ensures Reachable(THREE, c) && Climbed(c, n)
    decreases n
  {
    if n == 0 {
      c := Init(THREE);
      assert IsRun(THREE, Init(THREE), [], c);
      InitClimbed();
    } else {
      var c0 := Climb(n - 1);
      StandEffect(c0, 0);
      ReachableThen(THREE, c0, Stand(0));
      c := After(THREE, c0, Stand(0));
    }
  }

  /** One more possible event on a reachable cluster. */
  lemma {:induction false} Then(c: Cluster, e: Event) returns (c': Cluster)
    requires Reachable(THREE, c) && Enabled(THREE, c, e)
    ensures Reachable(THREE, c') && c' == After(THREE, c, e)
  {
    ReachableThen(THREE, c, e);
    c' := After(THREE, c, e);
  }

  /**
    At `u64::MAX` election safety fails: node 0 wins the term with node 1's vote, then node 1 stands again in the
    same term, votes for itself over its recorded vote, and wins with node 2's vote.
   */
  lemma {:induction false} TwoWinnersAtSaturation() returns (c: Cluster)
    ensures ValidGroup(THREE) && Reachable(THREE, c) && Won(c, U64_MAX, 0) && Won(c, U64_MAX, 1)
  {
    hide Reachable, Enabled, After, NodeAfter, SentBy;
    ThreeValid();
    var c0 := Climb(U64_MAX);
    var c1 := FirstVote(c0);
    var c2 := FirstWin(c1);
    var c3 := TermSpreads(c2);
    var c4 := SecondStand(c3);
    c := SecondWin(c4);
  }

  lemma {:induction false} FirstVote(c0: Cluster) returns (c: Cluster)
    requires Reachable(THREE, c0) && Climbed(c0, U64_MAX)
    ensures Reachable(THREE, c) && Trio(c) && VoteGranted(1, 0, U64_MAX) in c.msgs && TermSeen(U64_MAX) in c.msgs
    ensures c.nodes[0] == c0.nodes[0] && c.nodes[2] == FRESH
    ensures c.nodes[1].term == U64_MAX && Blank(c.nodes[1])
  {
    hide Reachable, Enabled, After, NodeAfter, SentBy;
    VoteEffect(c0, 1, 0, U64_MAX);
    EventMoves(c0, Vote(1, 0, U64_MAX));
    c := Then(c0, Vote(1, 0, U64_MAX));
  }

  lemma {:induction false} FirstWin(c1: Cluster) returns (c: Cluster)
    requires Reachable(THREE, c1) && Trio(c1) && VoteGranted(1, 0, U64_MAX) in c1.msgs
    requires c1.nodes[0].role == Candidate && c1.nodes[0].term == U64_MAX && c1.nodes[0].members == TRIO
    ensures Reachable(THREE, c) && Trio(c) && Won(c, U64_MAX, 0)
    ensures c1.msgs <= c.msgs && c.nodes[1] == c1.nodes[1] && c.nodes[2] == c1.nodes[2]
  {
    hide Reachable, Enabled, After, NodeAfter, SentBy;
    FinalizeEffect(c1, 0, 1, U64_MAX);
    WinRecorded(c1, Event(0, FinalizeStep(U64_MAX, {1}, Written)));
    c := Then(c1, Event(0, FinalizeStep(U64_MAX, {1}, Written)));
  }

  lemma {:induction false} TermSpreads(c2: Cluster) returns (c: Cluster)
    requires Reachable(THREE, c2) && Trio(c2) && TermSeen(U64_MAX) in c2.msgs && c2.nodes[2] == FRESH
    ensures Reachable(THREE, c) && Trio(c) && c.wins == c2.wins && c.nodes[1] == c2.nodes[1]
    ensures c.nodes[2].term == U64_MAX && c.nodes[2].votedFor == None && Blank(c.nodes[2])
  {
    ObserveEffect(c2, 2, U64_MAX);
    c := Then(c2, Event(2, ObserveTermStep(U64_MAX, Written)));
  }

  lemma {:induction false} SecondStand(c3: Cluster) returns (c: Cluster)
    requires Reachable(THREE, c3) && Trio(c3) && c3.nodes[1].term == U64_MAX && Blank(c3.nodes[1])
    ensures Reachable(THREE, c) && Trio(c) && c.wins == c3.wins && c.nodes[2] == c3.nodes[2]
    ensures VoteAsked(VoteRequest(U64_MAX, 1, 0, None, false)) in c.msgs
    ensures c.nodes[1].role == Candidate && c.nodes[1].term == U64_MAX && Blank(c.nodes[1])
  {
    StandEffect(c3, 1);
    c := Then(c3, Stand(1));
  }

  lemma {:induction false} SecondWin(c4: Cluster) returns (c: Cluster)
    requires Reachable(THREE, c4) && Trio(c4) && Won(c4, U64_MAX, 0)
    requires VoteAsked(VoteRequest(U64_MAX, 1, 0, None, false)) in c4.msgs
    requires c4.nodes[1].role == Candidate && c4.nodes[1].term == U64_MAX && Blank(c4.nodes[1])
    requires c4.nodes[2].term == U64_MAX && c4.nodes[2].votedFor == None && Blank(c4.nodes[2])
    ensures Reachable(THREE, c) && Won(c, U64_MAX, 0) && Won(c, U64_MAX, 1)
  {
    hide Reachable, Enabled, After, NodeAfter, SentBy;
    VoteEffect(c4, 2, 1, U64_MAX);
    EventMoves(c4, Vote(2, 1, U64_MAX));
    var c5 := Then(c4, Vote(2, 1, U64_MAX));
    FinalizeEffect(c5, 1, 2, U64_MAX);
    WinRecorded(c5, Event(1, FinalizeStep(U64_MAX, {2}, Written)));
    c := Then(c5, Event(1, FinalizeStep(U64_MAX, {2}, Written)));
  }
}
