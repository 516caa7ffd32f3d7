/** Whose logs elect whom: over every run, a winner's log ended no earlier than that of any voter that elected it. */
module ClusterLogs {
  import opened Base
  import opened Quorum
  import opened Replication
  import opened Cluster

  /** Ballots of one candidate in one term name one end. */
  ghost predicate SameElection(a: Ballot, b: Ballot) {
    a.grant.candidate == b.grant.candidate && a.grant.term == b.grant.term && a.grant.term < U64_MAX
  }

  ghost predicate BallotKept(c: Cluster, b: Ballot) {
    && b.grant in c.grants && NoFurther(b.voterEnd, b.candidateEnd)
    && Stood(c, b.grant.candidate, b.grant.term, b.candidateEnd)
  }

  /** The node stood for election in the term, and its log ended there then. */
  ghost predicate Stood(c: Cluster, i: NodeId, term: u64, end: LogEnd) {
    Ballot(Grant(i, i, term), end, end) in c.ballots
  }

  ghost predicate Cast(c: Cluster, gr: Grant) {
    exists b :: b in c.ballots && b.grant == gr
  }

  ghost predicate Ends(c: Cluster) {
    && (forall b :: b in c.ballots ==> BallotKept(c, b))
    && (forall gr :: gr in c.grants ==> Cast(c, gr))
    && (forall a, b :: a in c.ballots && b in c.ballots && SameElection(a, b) ==> a.candidateEnd == b.candidateEnd)
    && (forall m :: m in c.msgs ==> AskKept(c, m))
  }

  ghost predicate AskKept(c: Cluster, m: Msg) {
    m.VoteAsked? && !m.req.prevote ==> Stood(c, m.req.candidate, m.req.term, EndOf(m.req.lastTerm, m.req.lastIndex))
  }

  /** The ballot a step casts: the voter's log ends no later than the candidate's, which stood with that end. */
  lemma {:induction false} CastBallot(g: Group, c: Cluster, e: Event, b: Ballot)
    requires ValidGroup(g) && Enabled(g, c, e) && Ends(c) && b in BallotsOf(g, c, e)
    ensures NoFurther(b.voterEnd, b.candidateEnd) && b.grant in GrantsOf(g, c, e) && b.grant.voter == e.node
    ensures e.step.BeginElectionStep? ==> b.voterEnd == b.candidateEnd && b.grant.candidate == e.node
    ensures e.step.BeginElectionStep? ==> b.grant.term == SatAdd(c.nodes[e.node].term, 1)
    ensures !e.step.BeginElectionStep? ==> Stood(c, b.grant.candidate, b.grant.term, b.candidateEnd)
  {
    hide HandleVote;
    if e.step.VoteStep? {
      var req := e.step.req;
      VoteExactly(g.configs[e.node], c.nodes[e.node], req, e.step.withinLease, e.step.adoptIo, e.step.grantIo);
      assert AskKept(c, VoteAsked(req));
    }
  }

  /** A node has never cast a vote in a term it has not reached. */
  lemma {:induction false} NewTerm(g: Group, c: Cluster, i: NodeId, term: u64)
    requires Inv(g, c) && i in c.nodes && term > c.nodes[i].term && term < U64_MAX
    ensures forall gr :: gr in c.grants && gr.term == term ==> gr.candidate != i && gr.voter != i
  {
    assert VotesKept(g, c, i, c.nodes[i]);
    forall gr | gr in c.grants && gr.term == term ensures gr.candidate != i && gr.voter != i {
      assert gr.candidate == i ==> Grant(i, i, term) in c.grants;
    }
  }

  lemma {:induction false} EndsFresh(g: Group, c: Cluster, e: Event, a: Ballot, b: Ballot)
    requires ValidGroup(g) && Inv(g, c) && Ends(c) && Enabled(g, c, e)
    requires a in c.ballots && b in BallotsOf(g, c, e) && SameElection(a, b)
    ensures a.candidateEnd == b.candidateEnd
  {
    hide Inv, BallotsOf, GrantsOf;
    CastBallot(g, c, e, b);
    if e.step.BeginElectionStep? {
      assert BallotKept(c, a);
      NewTerm(g, c, e.node, b.grant.term);
    } else {
      var i, end := b.grant.candidate, b.candidateEnd;
      assert SameElection(a, Ballot(Grant(i, i, b.grant.term), end, end));
    }
  }

  lemma {:induction false} OneBallot(g: Group, c: Cluster, e: Event, a: Ballot, b: Ballot)
    requires Enabled(g, c, e) && a in BallotsOf(g, c, e) && b in BallotsOf(g, c, e)
    ensures a == b
  {
    hide HandleVote;
  }

  lemma {:induction false} EndsStep(g: Group, c: Cluster, e: Event)
    requires ValidGroup(g) && Inv(g, c) && Ends(c) && Enabled(g, c, e)
    ensures Ends(After(g, c, e))
  {
    hide Inv, BallotsOf, GrantsOf, SentBy, NodeAfter, WinsAfter, Enabled;
    var c' := After(g, c, e);
    forall b | b in c'.ballots ensures BallotKept(c', b) {
      if b in c.ballots {
        assert BallotKept(c, b);
      } else {
        CastBallot(g, c, e, b);
      }
    }
    forall gr | gr in c'.grants ensures Cast(c', gr) {
      NewGrantCast(g, c, e, gr);
    }
    forall a, b | a in c'.ballots && b in c'.ballots && SameElection(a, b) ensures a.candidateEnd == b.candidateEnd {
      if a in c.ballots && b !in c.ballots {
        EndsFresh(g, c, e, a, b);
      } else if a !in c.ballots && b in c.ballots {
        EndsFresh(g, c, e, b, a);
      } else if a !in c.ballots {
        OneBallot(g, c, e, a, b);
      }
    }
    forall m | m in c'.msgs ensures AskKept(c', m) {
      if m in c.msgs {
        assert AskKept(c, m);
      } else {
        NewAsk(g, c, e, m);
      }
    }
  }

  lemma {:induction false} NewGrantCast(g: Group, c: Cluster, e: Event, gr: Grant)
    requires Enabled(g, c, e) && Ends(c) && gr in After(g, c, e).grants
    ensures Cast(After(g, c, e), gr)
  {
    hide NodeAfter, SentBy, WinsAfter, GrantsOf;
    var c' := After(g, c, e);
    if gr in c.grants {
      var b :| b in c.ballots && b.grant == gr;
      assert b in c'.ballots;
    } else {
      var own := EndOf(c.nodes[e.node].appliedTerm, c.nodes[e.node].applied);
      var theirs := if e.step.VoteStep? then EndOf(e.step.req.lastTerm, e.step.req.lastIndex) else own;
      assert Ballot(gr, own, theirs) in c'.ballots;
    }
  }

  lemma {:induction false} NewAsk(g: Group, c: Cluster, e: Event, m: Msg)
    requires Enabled(g, c, e) && m in SentBy(g, c, e)
    ensures AskKept(After(g, c, e), m)
  {
    hide HandleVote, NodeAfter, HandleHeartbeat, WinsAfter;
    if m.VoteAsked? && !m.req.prevote {
      var end, gr := EndOf(m.req.lastTerm, m.req.lastIndex), Grant(e.node, e.node, m.req.term);
      assert gr in GrantsOf(g, c, e);
      assert Ballot(gr, end, end) in BallotsOf(g, c, e);
    }
  }

  lemma {:induction false} RunEnds(g: Group, c: Cluster, events: seq<Event>, c': Cluster)
    requires ValidGroup(g) && Inv(g, c) && Ends(c) && IsRun(g, c, events, c')
    ensures Ends(c')
    decreases |events|
  {
    hide Inv, Ends, After, Enabled;
    if events != [] {
      StepInv(g, c, events[0]);
      EndsStep(g, c, events[0]);
      RunEnds(g, After(g, c, events[0]), events[1..], c');
    }
  }

  /** Everyone in `q` voted for `l` in the term with a log that ended no later than `end`, where `l`'s ended. */
  ghost predicate ElectedBy(c: Cluster, term: u64, l: NodeId, q: set<NodeId>, end: LogEnd) {
    Stood(c, l, term, end) && forall v :: v in q ==> VotedBehind(c, Grant(v, l, term), end)
  }

  ghost predicate VotedBehind(c: Cluster, gr: Grant, end: LogEnd) {
    exists b :: b in c.ballots && b.grant == gr && b.candidateEnd == end && NoFurther(b.voterEnd, end)
  }

  /**
    The election restriction, over every run: the quorum that elected the winner of a term below the last voted, each
    of it, with a log that ended no later than the winner's own did when it stood for that term.
   */
  lemma {:induction false} WinnerIsUpToDate(g: Group, c: Cluster, term: u64, l: NodeId) returns (end: LogEnd)
    requires ValidGroup(g) && Reachable(g, c) && Won(c, term, l) && term < U64_MAX
    ensures IsQuorum(g.members, c.wins[(term, l)]) && ElectedBy(c, term, l, c.wins[(term, l)], end)
    ensures forall b :: b in c.ballots && b.grant.candidate == l && b.grant.term == term ==> b.candidateEnd == end
  {
    hide Inv, Ends, IsQuorum, ElectedBy, ValidGroup;
    ReachableEnds(g, c);
    ReachableInv(g, c);
    InvWins(g, c);
    end := WinnersEnd(g, c, term, l);
  }

  lemma {:induction false} InvWins(g: Group, c: Cluster)
    requires Inv(g, c)
    ensures WinsKept(g, c)
  {
  }

  lemma {:induction false} ReachableEnds(g: Group, c: Cluster)
    requires ValidGroup(g) && Reachable(g, c)
    ensures Ends(c)
  {
    hide IsRun, Inv, ValidGroup, Start;
    var events :| IsRun(g, Init(g), events, c);
    InitInv(g);
    RunEnds(g, Init(g), events, c);
  }

  lemma {:induction false} WinnersEnd(g: Group, c: Cluster, term: u64, l: NodeId) returns (end: LogEnd)
    requires ValidGroup(g) && WinsKept(g, c) && Ends(c) && Won(c, term, l) && term < U64_MAX
    ensures IsQuorum(g.members, c.wins[(term, l)]) && ElectedBy(c, term, l, c.wins[(term, l)], end)
    ensures forall b :: b in c.ballots && b.grant.candidate == l && b.grant.term == term ==> b.candidateEnd == end
  {
    hide NoFurther;
    var q := c.wins[(term, l)];
    assert Locked(g, c, term, l, q);
    assert q != {};
    var w :| w in q;
    assert Cast(c, Grant(w, l, term));
    var a :| a in c.ballots && a.grant == Grant(w, l, term);
    assert BallotKept(c, a);
    end := a.candidateEnd;
    forall b | b in c.ballots && b.grant.candidate == l && b.grant.term == term ensures b.candidateEnd == end {
      assert SameElection(a, b);
    }
    forall v | v in q ensures VotedBehind(c, Grant(v, l, term), end) {
      assert Cast(c, Grant(v, l, term));
      var b :| b in c.ballots && b.grant == Grant(v, l, term);
      assert BallotKept(c, b);
    }
  }
}
