/**
  A replication group as a state machine: nodes, a network that may lose, repeat and reorder messages
  (a message once sent stays deliverable for ever), crashes with restart from the durable record, and
  durable writes that may fail before or after they reach the disk.

  Membership is fixed: every node is configured with the same members, at least two of which vote.
 */
module Cluster {
  import opened Base
  import opened Quorum
  import opened Replication

  /** Static configuration of the group. */
  datatype Group = Group(members: Members, configs: map<NodeId, Config>)

  datatype Msg =
    | VoteAsked(req: VoteRequest)
    | VoteGranted(voter: NodeId, candidate: NodeId, term: u64)
    | TermSeen(term: u64)
    | Beat(hb: Heartbeat)
    | Acked(follower: NodeId, leader: NodeId, term: u64, sequence: u64)
    | Appended(follower: NodeId, leader: NodeId, term: u64, accepted: bool, sequence: u64)

  datatype Grant = Grant(voter: NodeId, candidate: NodeId, term: u64)

  /** A granted vote, with where the voter's log ended then and where the candidate said its own did. */
  datatype Ballot = Ballot(grant: Grant, voterEnd: LogEnd, candidateEnd: LogEnd)

  /**
    `nodes` and `msgs` are the system; the rest is history: every vote ever granted (a candidate's vote for
    itself included) and its ballot, every election ever won with the votes that won it, and the highest sequence
    each node has ever applied.
   */
  datatype Cluster = Cluster(
    nodes: map<NodeId, NodeState>,
    msgs: set<Msg>,
    grants: set<Grant>,
    ballots: set<Ballot>,
    wins: map<(u64, NodeId), set<NodeId>>,
    held: map<NodeId, u64>)

  datatype Step =
    | BeginElectionStep(io: Io)
    | AskPrevoteStep
    | VoteStep(req: VoteRequest, withinLease: bool, adoptIo: Io, grantIo: Io)
    | FinalizeStep(term: u64, votes: set<NodeId>, io: Io)
    | ObserveTermStep(term: u64, io: Io)
    | SendBeatStep
    | ReceiveBeatStep(hb: Heartbeat, io: Io)
    | ReceiveStatusStep(hb: Heartbeat, io: Io)
    | SetAppliedStep(sequence: u64, lastTerm: Option<u64>)
    | ObserveCommitStep(hb: Heartbeat)
    | SendAckStep(hb: Heartbeat)
    | SendAppendedStep(hb: Heartbeat, accepted: bool, sequence: u64)
    | ReceiveAckStep(ack: Msg)
    | ReceiveAppendedStep(result: Msg)
    | RestartStep

  /** A step taken by one node. */
  datatype Event = Event(node: NodeId, step: Step)

  ghost predicate ValidGroup(g: Group) {
    && g.configs.Keys == g.members.Keys
    && |Voters(g.members)| >= 2
    && forall i :: i in g.configs ==>
        && g.configs[i].nodeId == i
        && g.configs[i].initialMembers == g.members
        && g.configs[i].role != Standalone
  }

  /** No node commits on its own application alone (`majority` or `all` acknowledgement everywhere). */
  ghost predicate QuorumMode(g: Group) {
    forall i :: i in g.configs ==> g.configs[i].mode != Local
  }

  ghost function Init(g: Group): Cluster {
    Cluster(map i | i in g.configs :: Start(g.configs[i], None), {}, {}, {}, map[],
            map i | i in g.configs :: 0)
  }

  ghost predicate Enabled(g: Group, c: Cluster, e: Event) {
    && e.node in c.nodes && e.node in g.configs && e.node in c.held
    && var i := e.node;
       match e.step
       case VoteStep(req, _, _, _) => VoteAsked(req) in c.msgs
       case FinalizeStep(term, votes, _) =>
         && votes <= Voters(c.nodes[i].members) - {i}
         && forall v :: v in votes ==> VoteGranted(v, i, term) in c.msgs
       case ObserveTermStep(term, _) => TermSeen(term) in c.msgs
       case ReceiveBeatStep(hb, _) => Beat(hb) in c.msgs
       case ReceiveStatusStep(hb, _) => Beat(hb) in c.msgs
       case ObserveCommitStep(hb) => Beat(hb) in c.msgs
       case SendAckStep(hb) => Beat(hb) in c.msgs
       case SendAppendedStep(hb, accepted, sequence) =>
         Beat(hb) in c.msgs && (accepted ==> sequence == c.nodes[i].applied)
       case ReceiveAckStep(ack) => ack in c.msgs && ack.Acked?
       case ReceiveAppendedStep(result) => result in c.msgs && result.Appended?
       case _ => true
  }

  /** The node state after the step. */
  ghost function NodeAfter(g: Group, c: Cluster, e: Event): NodeState
    requires Enabled(g, c, e)
  {
    var config, s := g.configs[e.node], c.nodes[e.node];
    match e.step
    case BeginElectionStep(io) => BeginElection(config, s, io)
    case AskPrevoteStep => s
    case VoteStep(req, lease, io1, io2) => HandleVote(config, s, req, lease, io1, io2).state
    case FinalizeStep(term, votes, io) =>
      FinalizeElection(config, s, term, 1 + |votes|, VoterCount(s.members), io).state
    case ObserveTermStep(term, io) => ObserveTerm(s, term, io)
    case SendBeatStep => s
    case ReceiveBeatStep(hb, io) => HandleHeartbeat(s, hb, io).state
    case ReceiveStatusStep(hb, io) => ObserveStatus(s, hb, io)
    case SetAppliedStep(sequence, term) => SetApplied(config, s, sequence, term)
    case ObserveCommitStep(hb) => ObserveCommit(s, hb.commit)
    case SendAckStep(_) => s
    case SendAppendedStep(_, _, _) => s
    case ReceiveAckStep(ack) => RegisterAck(config, s, ack.follower, ack.sequence, ack.term, ack.leader)
    case ReceiveAppendedStep(r) =>
      RecordAppend(config, s, r.follower, r.accepted, r.sequence, r.term, r.leader)
    case RestartStep => Start(config, s.disk)
  }

  /** The votes granted by the step. */
  ghost function GrantsOf(g: Group, c: Cluster, e: Event): set<Grant>
    requires Enabled(g, c, e)
  {
    var config, s := g.configs[e.node], c.nodes[e.node];
    match e.step
    case BeginElectionStep(io) => if io.Written? then {Grant(e.node, e.node, SatAdd(s.term, 1))} else {}
    case VoteStep(req, lease, io1, io2) =>
      var reply := HandleVote(config, s, req, lease, io1, io2).reply;
      if reply.Some? && reply.value.granted && !req.prevote then {Grant(e.node, req.candidate, req.term)} else {}
    case _ => {}
  }

  ghost function BallotsOf(g: Group, c: Cluster, e: Event): set<Ballot>
    requires Enabled(g, c, e)
  {
    var own := EndOf(c.nodes[e.node].appliedTerm, c.nodes[e.node].applied);
    var theirs := if e.step.VoteStep? then EndOf(e.step.req.lastTerm, e.step.req.lastIndex) else own;
    set gr | gr in GrantsOf(g, c, e) :: Ballot(gr, own, theirs)
  }

  ghost function SentBy(g: Group, c: Cluster, e: Event): set<Msg>
    requires Enabled(g, c, e)
  {
    var config, s := g.configs[e.node], c.nodes[e.node];
    match e.step
    case BeginElectionStep(io) =>
      if io.Written?
      then {VoteAsked(VoteRequest(SatAdd(s.term, 1), e.node, s.applied, s.appliedTerm, false))} else {}
    case AskPrevoteStep => {VoteAsked(VoteRequest(SatAdd(s.term, 1), e.node, s.applied, s.appliedTerm, true))}
    case VoteStep(req, lease, io1, io2) =>
      var reply := HandleVote(config, s, req, lease, io1, io2).reply;
      if reply.None? then {}
      else if reply.value.granted && !req.prevote
      then {TermSeen(reply.value.term), VoteGranted(e.node, req.candidate, req.term)}
      else {TermSeen(reply.value.term)}
    case SendBeatStep =>
      var payload := HeartbeatPayload(config, s);
      if payload.Some? then {Beat(payload.value)} else {}
    case ReceiveBeatStep(hb, io) =>
      var reply := HandleHeartbeat(s, hb, io).reply;
      if reply.Some? then {TermSeen(reply.value.term)} else {}
    case SendAckStep(hb) => {Acked(e.node, hb.leader, hb.term, s.applied)}
    case SendAppendedStep(hb, accepted, sequence) =>
      {TermSeen(s.term), Appended(e.node, hb.leader, hb.term, accepted, sequence)}
    case _ => {}
  }

  /** The election the step wins, if any. */
  ghost predicate WinsElection(g: Group, c: Cluster, e: Event)
    requires Enabled(g, c, e)
  {
    e.step.FinalizeStep? && c.nodes[e.node].role == Candidate && NodeAfter(g, c, e).role == Leader
  }

  ghost function WinsAfter(g: Group, c: Cluster, e: Event): map<(u64, NodeId), set<NodeId>>
    requires Enabled(g, c, e)
  {
    if WinsElection(g, c, e) && (e.step.term, e.node) !in c.wins
    then c.wins[(e.step.term, e.node) := {e.node} + e.step.votes]
    else c.wins
  }

  ghost function After(g: Group, c: Cluster, e: Event): Cluster
    requires Enabled(g, c, e)
  {
    Cluster(c.nodes[e.node := NodeAfter(g, c, e)],
            c.msgs + SentBy(g, c, e),
            c.grants + GrantsOf(g, c, e),
            c.ballots + BallotsOf(g, c, e),
            WinsAfter(g, c, e),
            c.held[e.node := Max(c.held[e.node], NodeAfter(g, c, e).applied)])
  }

  /** The cluster after a whole run, provided every event was possible when it happened. */
  ghost predicate IsRun(g: Group, c: Cluster, events: seq<Event>, c': Cluster)
    decreases |events|
  {
    if events == [] then c' == c
    else Enabled(g, c, events[0]) && IsRun(g, After(g, c, events[0]), events[1..], c')
  }

  ghost predicate Reachable(g: Group, c: Cluster) {
    exists events :: IsRun(g, Init(g), events, c)
  }

  // ---------------------------------------------------------------- invariant

  ghost predicate Won(c: Cluster, term: u64, node: NodeId) {
    (term, node) in c.wins
  }

  ghost predicate NobodyWon(c: Cluster, term: u64) {
    forall l :: !Won(c, term, l)
  }

  /**
    A record (term, vote) of node `i` is consistent with every vote `i` granted: the vote is still the recorded
    one, unless the term moved on or the election was won and a heartbeat wrote the winner over it.
   */
  ghost predicate Honours(c: Cluster, i: NodeId, term: u64, votedFor: Option<NodeId>) {
    forall gr :: gr in c.grants && gr.voter == i && gr.term < U64_MAX ==>
      || term > gr.term
      || (&& term == gr.term && votedFor.Some?
          && (votedFor.value == gr.candidate || Won(c, term, votedFor.value)))
  }

  ghost predicate RoleKept(g: Group, c: Cluster, i: NodeId, s: NodeState) {
    && s.members == g.members
    && s.role != Standalone
    && (s.role == Leader ==> Won(c, s.term, i))
  }

  ghost predicate VotesKept(g: Group, c: Cluster, i: NodeId, s: NodeState) {
    && RoleKept(g, c, i, s)
    && Honours(c, i, s.term, s.votedFor)
    && (s.disk.None? ==> forall gr :: gr in c.grants ==> gr.voter != i)
    && (s.disk.Some? ==>
          && s.disk.value.members == g.members
          && Honours(c, i, s.disk.value.term, s.disk.value.votedFor))
  }

  /** Some acknowledgement of at least `sequence` by `v` to the leader `l` of `term` has been sent. */
  ghost predicate Acknowledged(c: Cluster, v: NodeId, l: NodeId, term: u64, sequence: u64) {
    exists m :: m in c.msgs && AckOf(m, v, l, term, sequence)
  }

  ghost predicate AckOf(m: Msg, v: NodeId, l: NodeId, term: u64, sequence: u64) {
    || (m.Acked? && m.follower == v && m.leader == l && m.term == term && m.sequence >= sequence)
    || (m.Appended? && m.accepted && m.follower == v && m.leader == l && m.term == term && m.sequence >= sequence)
  }

  /** `q` is a quorum of voters that stood behind `sequence` for the elected leader `l` of `term`. */
  ghost predicate Backs(g: Group, c: Cluster, sequence: u64, l: NodeId, term: u64, q: set<NodeId>) {
    && Won(c, term, l)
    && IsQuorum(g.members, q)
    && forall v :: v in q ==>
        && v in c.held && c.held[v] >= sequence
        && (v != l ==> Acknowledged(c, v, l, term, sequence))
  }

  ghost predicate Certified(g: Group, c: Cluster, sequence: u64) {
    sequence > 0 ==> exists l, term, q :: Backs(g, c, sequence, l, term, q)
  }

  ghost predicate ProgressKept(g: Group, c: Cluster, i: NodeId, s: NodeState) {
    && i in c.held && s.applied <= c.held[i]
    && (forall f :: f in s.followers ==>
          && s.followers[f].lastAckTerm == s.term
          && (s.followers[f].matchIndex > 0 ==> Acknowledged(c, f, i, s.term, s.followers[f].matchIndex)))
    && (QuorumMode(g) ==> Certified(g, c, s.commit))
  }

  ghost predicate MsgKept(g: Group, c: Cluster, m: Msg) {
    match m
    case VoteAsked(req) => !req.prevote ==> Grant(req.candidate, req.candidate, req.term) in c.grants
    case VoteGranted(v, l, t) => Grant(v, l, t) in c.grants
    case TermSeen(_) => true
    case Beat(hb) =>
      && Won(c, hb.term, hb.leader) && hb.members == g.members
      && (QuorumMode(g) ==> Certified(g, c, hb.commit))
    case Acked(v, _, _, n) => v in c.held && n <= c.held[v]
    case Appended(v, _, _, ok, n) => ok ==> v in c.held && n <= c.held[v]
  }

  ghost predicate SameVote(a: Grant, b: Grant) {
    a.voter == b.voter && a.term == b.term && a.term < U64_MAX
  }

  /** Grants go to voting candidates that voted for themselves; until the term is won each voter grants once. */
  ghost predicate GrantsKept(g: Group, c: Cluster) {
    && (forall gr :: gr in c.grants && gr.voter != gr.candidate ==>
          gr.candidate in Voters(g.members) && Grant(gr.candidate, gr.candidate, gr.term) in c.grants)
    && (forall a, b :: a in c.grants && b in c.grants && SameVote(a, b) && NobodyWon(c, a.term) ==>
          a.candidate == b.candidate)
  }

  /** The votes that won `term` for `l` were a quorum, and none of those voters ever granted that term to another. */
  ghost predicate Locked(g: Group, c: Cluster, term: u64, l: NodeId, q: set<NodeId>) {
    && IsQuorum(g.members, q)
    && (forall v :: v in q ==> Grant(v, l, term) in c.grants)
    && (forall gr :: gr in c.grants && gr.term == term && gr.voter in q ==> gr.candidate == l)
  }

  ghost predicate WinsKept(g: Group, c: Cluster) {
    && (forall w :: w in c.wins && w.0 < U64_MAX ==> Locked(g, c, w.0, w.1, c.wins[w]))
    && UniqueWinners(c)
  }

  ghost predicate UniqueWinners(c: Cluster) {
    forall v, w :: v in c.wins && w in c.wins && v.0 == w.0 && v.0 < U64_MAX ==> v.1 == w.1
  }

  ghost predicate Inv(g: Group, c: Cluster) {
    && c.nodes.Keys == g.configs.Keys
    && (forall i :: i in c.nodes ==> VotesKept(g, c, i, c.nodes[i]))
    && (forall i :: i in c.nodes ==> ProgressKept(g, c, i, c.nodes[i]))
    && (forall m :: m in c.msgs ==> MsgKept(g, c, m))
    && GrantsKept(g, c)
    && WinsKept(g, c)
  }

  // ---------------------------------------------------------------- history only grows

  ghost predicate Grows(c: Cluster, c': Cluster) {
    && c.msgs <= c'.msgs && c.grants <= c'.grants
    && (forall w :: w in c.wins ==> w in c'.wins && c'.wins[w] == c.wins[w])
    && (forall i :: i in c.held ==> i in c'.held && c.held[i] <= c'.held[i])
  }

  lemma {:induction false} AcknowledgedGrows(c: Cluster, c': Cluster, v: NodeId, l: NodeId, term: u64, sequence: u64)
    requires Grows(c, c') && Acknowledged(c, v, l, term, sequence)
    ensures Acknowledged(c', v, l, term, sequence)
  {
    var m :| m in c.msgs && AckOf(m, v, l, term, sequence);
    assert m in c'.msgs;
  }

  lemma {:induction false} CertifiedGrows(g: Group, c: Cluster, c': Cluster, sequence: u64)
    requires Grows(c, c') && Certified(g, c, sequence)
    ensures Certified(g, c', sequence)
  {
    if sequence > 0 {
      var l, term, q :| Backs(g, c, sequence, l, term, q);
      forall v | v in q && v != l ensures Acknowledged(c', v, l, term, sequence) {
        AcknowledgedGrows(c, c', v, l, term, sequence);
      }
      assert Backs(g, c', sequence, l, term, q);
    }
  }

  lemma {:induction false} AfterGrows(g: Group, c: Cluster, e: Event)
    requires Enabled(g, c, e)
    ensures Grows(c, After(g, c, e))
  {
  }

  lemma {:induction false} MsgGrows(g: Group, c: Cluster, c': Cluster, m: Msg)
    requires Grows(c, c') && MsgKept(g, c, m)
    ensures MsgKept(g, c', m)
  {
    if m.Beat? && QuorumMode(g) {
      CertifiedGrows(g, c, c', m.hb.commit);
    }
  }

  lemma {:induction false} ProgressGrows(g: Group, c: Cluster, c': Cluster, i: NodeId, s: NodeState)
    requires Grows(c, c') && ProgressKept(g, c, i, s)
    ensures ProgressKept(g, c', i, s)
  {
    forall f | f in s.followers && s.followers[f].matchIndex > 0
      ensures Acknowledged(c', f, i, s.term, s.followers[f].matchIndex)
    {
      AcknowledgedGrows(c, c', f, i, s.term, s.followers[f].matchIndex);
    }
    if QuorumMode(g) {
      CertifiedGrows(g, c, c', s.commit);
    }
  }

  /** A node that grants nothing in the step keeps honouring its votes. */
  lemma {:induction false} HonoursGrows(c: Cluster, c': Cluster, i: NodeId, term: u64, votedFor: Option<NodeId>)
    requires Grows(c, c') && Honours(c, i, term, votedFor)
    requires forall gr :: gr in c'.grants && gr.voter == i ==> gr in c.grants
    ensures Honours(c', i, term, votedFor)
  {
  }

  // ---------------------------------------------------------------- votes

  /** Moving to a later term, or within the term to the winner's name, honours every earlier vote. */
  lemma {:induction false} HonoursAdvance(c: Cluster, i: NodeId, term: u64, votedFor: Option<NodeId>, term': u64,
                                          votedFor': Option<NodeId>)
    requires Honours(c, i, term, votedFor)
    requires || term' > term
             || (term' == term && votedFor' == votedFor)
             || (term' == term && (votedFor.None? || (votedFor'.Some? && Won(c, term, votedFor'.value))))
    ensures Honours(c, i, term', votedFor')
  {
  }

  lemma {:induction false} BeatFollowed(g: Group, c: Cluster, i: NodeId, s: NodeState, hb: Heartbeat, io: Io)
    requires VotesKept(g, c, i, s) && MsgKept(g, c, Beat(hb)) && hb.term >= s.term
    ensures VotesKept(g, c, i, FollowLeader(s, hb, g.members, io))
  {
    HonoursAdvance(c, i, s.term, s.votedFor, hb.term, Some(hb.leader));
  }

  /** Steps that touch only progress, or nothing at all. */
  predicate IsProgressStep(step: Step) {
    || step.AskPrevoteStep? || step.SendBeatStep? || step.SendAckStep? || step.SendAppendedStep?
    || step.SetAppliedStep? || step.ObserveCommitStep? || step.ReceiveAckStep? || step.ReceiveAppendedStep?
  }

  lemma {:induction false} ProgressStepFrame(g: Group, c: Cluster, e: Event)
    requires Enabled(g, c, e) && IsProgressStep(e.step)
    ensures var s, s' := c.nodes[e.node], NodeAfter(g, c, e);
            && s'.role == s.role && s'.term == s.term && s'.votedFor == s.votedFor
            && s'.members == s.members && s'.disk == s.disk
  {
  }

  lemma {:induction false} StartMembersFixed(g: Group, i: NodeId, disk: Option<Persisted>)
    requires ValidGroup(g) && i in g.configs
    requires disk.Some? ==> disk.value.members == g.members
    ensures Start(g.configs[i], disk).members == g.members
    ensures Start(g.configs[i], disk).role == Follower
  {
  }

  lemma {:induction false} RestartVotes(g: Group, c: Cluster, i: NodeId, s: NodeState)
    requires ValidGroup(g) && i in g.configs && VotesKept(g, c, i, s)
    ensures VotesKept(g, c, i, Start(g.configs[i], s.disk))
  {
    StartMembersFixed(g, i, s.disk);
  }

  lemma {:induction false} ObserveTermVotes(g: Group, c: Cluster, i: NodeId, s: NodeState, term: u64, io: Io)
    requires VotesKept(g, c, i, s)
    ensures VotesKept(g, c, i, ObserveTerm(s, term, io))
  {
    if term > s.term {
      HonoursAdvance(c, i, s.term, s.votedFor, term, None);
    }
  }

  lemma {:induction false} AdoptTermVotes(g: Group, c: Cluster, i: NodeId, s: NodeState, term: u64, io: Io)
    requires VotesKept(g, c, i, s)
    ensures VotesKept(g, c, i, AdoptTerm(s, term, io))
  {
    if term > s.term {
      HonoursAdvance(c, i, s.term, s.votedFor, term, None);
    }
  }

  /** Every step that neither grants a vote nor wins an election keeps the node's votes. */
  lemma {:induction false} QuietVotes(g: Group, c: Cluster, e: Event)
    requires ValidGroup(g) && Enabled(g, c, e)
    requires !e.step.BeginElectionStep? && !e.step.VoteStep? && !e.step.FinalizeStep?
    requires VotesKept(g, c, e.node, c.nodes[e.node])
    requires forall m :: m in c.msgs ==> MsgKept(g, c, m)
    ensures VotesKept(g, c, e.node, NodeAfter(g, c, e))
  {
    var s := c.nodes[e.node];
    if IsProgressStep(e.step) {
      ProgressStepFrame(g, c, e);
    } else if e.step.ReceiveBeatStep? || e.step.ReceiveStatusStep? {
      assert MsgKept(g, c, Beat(e.step.hb));
      if e.step.hb.term >= s.term {
        BeatFollowed(g, c, e.node, s, e.step.hb, e.step.io);
      }
    } else if e.step.ObserveTermStep? {
      ObserveTermVotes(g, c, e.node, s, e.step.term, e.step.io);
    } else {
      RestartVotes(g, c, e.node, s);
    }
  }

  lemma {:induction false} BeginElectionVotes(g: Group, c: Cluster, c': Cluster, i: NodeId, s: NodeState, io: Io)
    requires i in g.configs && g.configs[i].nodeId == i
    requires VotesKept(g, c, i, s)
    requires c'.wins == c.wins
    requires c'.grants == c.grants + (if io.Written? then {Grant(i, i, SatAdd(s.term, 1))} else {})
    ensures VotesKept(g, c', i, BeginElection(g.configs[i], s, io))
  {
  }

  /** The answering half of the vote handler, on a node already in the request's term. */
  lemma {:induction false} AnswerVotes(g: Group, c: Cluster, c': Cluster, i: NodeId, a: NodeState, req: VoteRequest,
                                       lease: bool, io: Io)
    requires VotesKept(g, c, i, a) && a.term == req.term
    requires c'.wins == c.wins
    requires var reply := AnswerVote(a, req, lease, io).reply;
             c'.grants == c.grants + (if reply.Some? && reply.value.granted
                                      then {Grant(i, req.candidate, req.term)} else {})
    ensures VotesKept(g, c', i, AnswerVote(a, req, lease, io).state)
  {
    if GrantsVote(a, req, lease) {
      HonoursAdvance(c, i, a.term, a.votedFor, a.term, Some(req.candidate));
    }
  }

  lemma {:induction false} VotesGrow(g: Group, c: Cluster, c': Cluster, i: NodeId, s: NodeState)
    requires Grows(c, c') && VotesKept(g, c, i, s)
    requires forall gr :: gr in c'.grants && gr.voter == i ==> gr in c.grants
    ensures VotesKept(g, c', i, s)
  {
    HonoursGrows(c, c', i, s.term, s.votedFor);
    if s.disk.Some? {
      HonoursGrows(c, c', i, s.disk.value.term, s.disk.value.votedFor);
    }
  }

  /** `gr` is a vote that the voter's record leaves room for. */
  ghost predicate Fits(g: Group, c: Cluster, gr: Grant) {
    && (gr.voter != gr.candidate ==>
          gr.candidate in Voters(g.members) && Grant(gr.candidate, gr.candidate, gr.term) in c.grants)
    && (forall past :: past in c.grants && SameVote(past, gr) ==>
          past.candidate == gr.candidate || Won(c, gr.term, gr.candidate))
  }

  lemma {:induction false} SelfVoteFits(g: Group, c: Cluster, i: NodeId, s: NodeState)
    requires VotesKept(g, c, i, s)
    ensures Fits(g, c, Grant(i, i, SatAdd(s.term, 1)))
  {
  }

  lemma {:induction false} GivenVoteFits(g: Group, c: Cluster, i: NodeId, a: NodeState, req: VoteRequest, lease: bool)
    requires VotesKept(g, c, i, a) && a.term == req.term && GrantsVote(a, req, lease)
    requires IsVotingMember(a.members, req.candidate) && MsgKept(g, c, VoteAsked(req)) && !req.prevote
    ensures Fits(g, c, Grant(i, req.candidate, req.term))
  {
  }

  // ---------------------------------------------------------------- elections

  /** The effect of a step on the voting history: at most one fitting grant. */
  ghost predicate GrantDelta(g: Group, c: Cluster, c': Cluster) {
    && Grows(c, c')
    && (c'.grants == c.grants || exists gr :: Fits(g, c, gr) && c'.grants == c.grants + {gr})
  }

  lemma {:induction false} GrantsDelta(g: Group, c: Cluster, c': Cluster)
    requires GrantsKept(g, c) && GrantDelta(g, c, c')
    ensures GrantsKept(g, c')
  {
    forall t | NobodyWon(c', t) ensures NobodyWon(c, t) {
      forall l ensures !Won(c, t, l) { assert !Won(c', t, l); }
    }
    forall a, b | a in c'.grants && b in c'.grants && SameVote(a, b) && NobodyWon(c', a.term)
      ensures a.candidate == b.candidate
    {
      assert NobodyWon(c, a.term);
      assert !Won(c, a.term, a.candidate) && !Won(c, a.term, b.candidate);
    }
  }

  /** New grants do not disturb the votes that already won an election. */
  lemma {:induction false} LockedDelta(g: Group, c: Cluster, c': Cluster, term: u64, l: NodeId)
    requires WinsKept(g, c) && GrantDelta(g, c, c') && Won(c, term, l) && term < U64_MAX
    ensures Locked(g, c', term, l, c.wins[(term, l)])
  {
    var q := c.wins[(term, l)];
    assert Locked(g, c, term, l, q);
    forall gr | gr in c'.grants && gr.term == term && gr.voter in q ensures gr.candidate == l {
      if gr !in c.grants {
        assert SameVote(Grant(gr.voter, l, term), gr);
        assert (term, l) in c.wins;
      }
    }
  }

  /** `q` is a quorum of voters each of which granted `term` to `i`. */
  ghost predicate Elects(g: Group, c: Cluster, term: u64, i: NodeId, q: set<NodeId>) {
    IsQuorum(g.members, q) && forall v :: v in q ==> Grant(v, i, term) in c.grants
  }

  /** Whoever collects a quorum in a won term below the saturation point is the winner of that term. */
  lemma {:induction false} OnlyWinner(g: Group, c: Cluster, term: u64, i: NodeId, q: set<NodeId>, l: NodeId)
    requires WinsKept(g, c) && Elects(g, c, term, i, q) && Won(c, term, l) && term < U64_MAX
    ensures l == i
  {
    assert Locked(g, c, term, l, c.wins[(term, l)]);
    var v := QuorumsIntersect(g.members, c.wins[(term, l)], q);
    assert Grant(v, i, term) in c.grants;
  }

  lemma {:induction false} FirstWinLocked(g: Group, c: Cluster, term: u64, i: NodeId, q: set<NodeId>)
    requires WinsKept(g, c) && GrantsKept(g, c) && Elects(g, c, term, i, q)
    requires term < U64_MAX && !Won(c, term, i)
    ensures Locked(g, c, term, i, q)
  {
    forall l ensures !Won(c, term, l) {
      if Won(c, term, l) { OnlyWinner(g, c, term, i, q, l); }
    }
    assert NobodyWon(c, term);
    forall gr | gr in c.grants && gr.term == term && gr.voter in q ensures gr.candidate == i {
      assert SameVote(gr, Grant(gr.voter, i, term));
    }
  }

  lemma {:induction false} WinsDeltaQuiet(g: Group, c: Cluster, c': Cluster)
    requires WinsKept(g, c) && GrantDelta(g, c, c') && c'.wins == c.wins
    ensures WinsKept(g, c')
  {
    forall w | w in c'.wins && w.0 < U64_MAX ensures Locked(g, c', w.0, w.1, c'.wins[w]) {
      LockedDelta(g, c, c', w.0, w.1);
    }
  }

  lemma {:induction false} WinsDeltaWon(g: Group, c: Cluster, c': Cluster, term: u64, i: NodeId, q: set<NodeId>)
    requires WinsKept(g, c) && GrantsKept(g, c) && c'.grants == c.grants
    requires Elects(g, c, term, i, q) && !Won(c, term, i) && c'.wins == c.wins[(term, i) := q]
    ensures WinsKept(g, c')
  {
    if term < U64_MAX {
      FirstWinLocked(g, c, term, i, q);
      forall l | Won(c, term, l) ensures l == i {
        OnlyWinner(g, c, term, i, q, l);
      }
    }
    forall v, w | v in c'.wins && w in c'.wins && v.0 == w.0 && v.0 < U64_MAX ensures v.1 == w.1 {
      if v in c.wins && w !in c.wins {
        assert Won(c, term, v.1);
      } else if w in c.wins && v !in c.wins {
        assert Won(c, term, w.1);
      }
    }
    forall w | w in c'.wins && w.0 < U64_MAX ensures Locked(g, c', w.0, w.1, c'.wins[w]) {
      if w in c.wins { assert Locked(g, c, w.0, w.1, c.wins[w]); }
    }
  }

  lemma {:induction false} StepGrants(g: Group, c: Cluster, e: Event, c': Cluster)
    requires ValidGroup(g) && Enabled(g, c, e) && Grows(c, c')
    requires VotesKept(g, c, e.node, c.nodes[e.node])
    requires forall m :: m in c.msgs ==> MsgKept(g, c, m)
    requires c'.grants == c.grants + GrantsOf(g, c, e)
    ensures GrantDelta(g, c, c')
  {
    var s := c.nodes[e.node];
    if e.step.BeginElectionStep? {
      SelfVoteFits(g, c, e.node, s);
      if !e.step.io.Written? { assert c'.grants == c.grants; }
    } else if e.step.VoteStep? {
      VoteGrants(g, c, e, c');
    } else {
      assert c'.grants == c.grants;
    }
  }

  lemma {:induction false} VoteGrants(g: Group, c: Cluster, e: Event, c': Cluster)
    requires ValidGroup(g) && Enabled(g, c, e) && Grows(c, c') && e.step.VoteStep?
    requires VotesKept(g, c, e.node, c.nodes[e.node])
    requires forall m :: m in c.msgs ==> MsgKept(g, c, m)
    requires c'.grants == c.grants + GrantsOf(g, c, e)
    ensures GrantDelta(g, c, c')
  {
    if GrantsOf(g, c, e) == {} {
      assert c'.grants == c.grants;
    } else {
      var req, a := e.step.req, AdoptTerm(c.nodes[e.node], e.step.req.term, e.step.adoptIo);
      AdoptTermVotes(g, c, e.node, c.nodes[e.node], req.term, e.step.adoptIo);
      assert MsgKept(g, c, VoteAsked(req));
      GivenVoteFits(g, c, e.node, a, req, e.step.withinLease);
    }
  }

  lemma {:induction false} StepVotes(g: Group, c: Cluster, e: Event, c': Cluster)
    requires ValidGroup(g) && Enabled(g, c, e) && Grows(c, c')
    requires VotesKept(g, c, e.node, c.nodes[e.node])
    requires forall m :: m in c.msgs ==> MsgKept(g, c, m)
    requires c'.grants == c.grants + GrantsOf(g, c, e) && c'.wins == WinsAfter(g, c, e)
    ensures VotesKept(g, c', e.node, NodeAfter(g, c, e))
  {
    var i, s := e.node, c.nodes[e.node];
    if e.step.BeginElectionStep? {
      BeginElectionVotes(g, c, c', i, s, e.step.io);
    } else if e.step.VoteStep? {
      VoteStepVotes(g, c, e, c');
    } else if e.step.FinalizeStep? {
      FinalizeVotes(g, c, e, c');
    } else {
      QuietVotes(g, c, e);
      assert c'.grants == c.grants;
      VotesGrow(g, c, c', i, NodeAfter(g, c, e));
    }
  }

  lemma {:induction false} VoteStepVotes(g: Group, c: Cluster, e: Event, c': Cluster)
    requires Enabled(g, c, e) && Grows(c, c') && e.step.VoteStep?
    requires VotesKept(g, c, e.node, c.nodes[e.node])
    requires c'.grants == c.grants + GrantsOf(g, c, e) && c'.wins == c.wins
    ensures VotesKept(g, c', e.node, NodeAfter(g, c, e))
  {
    var i, s, req := e.node, c.nodes[e.node], e.step.req;
    var a := AdoptTerm(s, req.term, e.step.adoptIo);
    if !IsVotingMember(s.members, req.candidate) || req.term < s.term || req.prevote {
      assert NodeAfter(g, c, e) == s;
      VotesGrow(g, c, c', i, s);
    } else {
      AdoptTermVotes(g, c, i, s, req.term, e.step.adoptIo);
      if req.term > s.term && !e.step.adoptIo.Written? {
        assert NodeAfter(g, c, e) == a;
        VotesGrow(g, c, c', i, a);
      } else {
        AnswerVotes(g, c, c', i, a, req, e.step.withinLease, e.step.grantIo);
      }
    }
  }

  lemma {:induction false} FinalizeVotes(g: Group, c: Cluster, e: Event, c': Cluster)
    requires Enabled(g, c, e) && Grows(c, c') && e.step.FinalizeStep?
    requires VotesKept(g, c, e.node, c.nodes[e.node])
    requires c'.grants == c.grants && c'.wins == WinsAfter(g, c, e)
    ensures VotesKept(g, c', e.node, NodeAfter(g, c, e))
  {
    VotesGrow(g, c, c', e.node, c.nodes[e.node]);
  }

  lemma {:induction false} WinCounts(g: Group, c: Cluster, e: Event)
    requires Enabled(g, c, e) && WinsElection(g, c, e)
    ensures 1 + |e.step.votes| >= QuorumOf(c.nodes[e.node].members)
  {
  }

  /** The votes a candidate counted, with its own, are a quorum that granted it the term. */
  lemma {:induction false} CountedVotesElect(g: Group, c: Cluster, i: NodeId, term: u64, votes: set<NodeId>)
    requires ValidGroup(g) && GrantsKept(g, c)
    requires votes <= Voters(g.members) - {i} && 1 + |votes| >= QuorumOf(g.members)
    requires forall v :: v in votes ==> Grant(v, i, term) in c.grants
    ensures Elects(g, c, term, i, {i} + votes)
  {
    assert |{i} + votes| == 1 + |votes|;
    assert votes != {};
    var v :| v in votes;
    assert Grant(v, i, term) in c.grants && v != i;
  }

  lemma {:induction false} StepElects(g: Group, c: Cluster, e: Event)
    requires ValidGroup(g) && Enabled(g, c, e) && WinsElection(g, c, e)
    requires RoleKept(g, c, e.node, c.nodes[e.node]) && GrantsKept(g, c)
    requires forall m :: m in c.msgs ==> MsgKept(g, c, m)
    ensures Elects(g, c, e.step.term, e.node, {e.node} + e.step.votes)
  {
    WinCounts(g, c, e);
    forall v | v in e.step.votes ensures Grant(v, e.node, e.step.term) in c.grants {
      assert MsgKept(g, c, VoteGranted(v, e.node, e.step.term));
    }
    CountedVotesElect(g, c, e.node, e.step.term, e.step.votes);
  }

  lemma {:induction false} StepWins(g: Group, c: Cluster, e: Event, c': Cluster)
    requires ValidGroup(g) && Enabled(g, c, e)
    requires VotesKept(g, c, e.node, c.nodes[e.node]) && GrantsKept(g, c) && WinsKept(g, c)
    requires forall m :: m in c.msgs ==> MsgKept(g, c, m)
    requires GrantDelta(g, c, c') && c'.wins == WinsAfter(g, c, e)
    requires c'.grants == c.grants + GrantsOf(g, c, e)
    ensures WinsKept(g, c')
  {
    if WinsElection(g, c, e) && !Won(c, e.step.term, e.node) {
      StepElects(g, c, e);
      assert c'.grants == c.grants;
      WinsDeltaWon(g, c, c', e.step.term, e.node, {e.node} + e.step.votes);
    } else {
      WinsDeltaQuiet(g, c, c');
    }
  }

  // ---------------------------------------------------------------- commit certificates

  /** A freshly recomputed commit point above the old one is backed by a quorum. */
  lemma {:induction false} RecomputeCertified(g: Group, c: Cluster, i: NodeId, s: NodeState)
    requires ValidGroup(g) && i in g.configs && QuorumMode(g)
    requires s.members == g.members && Won(c, s.term, i)
    requires ProgressKept(g, c, i, s)
    requires forall m :: m in c.msgs ==> MsgKept(g, c, m)
    ensures Certified(g, c, Recompute(g.configs[i], s).commit)
  {
    var config := g.configs[i];
    var n := Recompute(config, s).commit;
    if n > s.commit {
      var matchOf := MatchOf(i, s.applied, s.followers);
      var q := Reaching(Voters(s.members), matchOf, n);
      CandidateReached(config, s, n);
      forall v | v in q && v != i ensures Acknowledged(c, v, i, s.term, n) && v in c.held && c.held[v] >= n {
        assert Acknowledged(c, v, i, s.term, s.followers[v].matchIndex);
        var m :| m in c.msgs && AckOf(m, v, i, s.term, s.followers[v].matchIndex);
        assert AckOf(m, v, i, s.term, n);
        assert MsgKept(g, c, m);
      }
      assert Backs(g, c, n, i, s.term, q);
    }
  }

  /** Whatever a leader may commit in a quorum mode has been reached by a quorum of voters. */
  lemma {:induction false} CandidateReached(config: Config, s: NodeState, n: u64)
    requires config.mode != Local && |Voters(s.members)| >= 2 && n <= CommitCandidate(config, s)
    ensures |Reaching(Voters(s.members), MatchOf(config.nodeId, s.applied, s.followers), n)| >= QuorumOf(s.members)
  {
    var voters, matchOf := Voters(s.members), MatchOf(config.nodeId, s.applied, s.followers);
    var need := if config.mode == Replica then QuorumOf(s.members) else |voters|;
    forall d: nat | d > U64_MAX ensures |Reaching(voters, matchOf, d)| < need {
      assert Reaching(voters, matchOf, d) == {};
    }
    ReachedPointIsGreatest(voters, matchOf, need, U64_MAX);
    ReachingShrinks(voters, matchOf, n, CommitCandidate(config, s));
  }

  lemma {:induction false} CertifiedBelow(g: Group, c: Cluster, n: u64, m: u64)
    requires n <= m && Certified(g, c, m)
    ensures Certified(g, c, n)
  {
    if n > 0 {
      var l, term, q :| Backs(g, c, m, l, term, q);
      forall v | v in q && v != l ensures Acknowledged(c, v, l, term, n) {
        var a :| a in c.msgs && AckOf(a, v, l, term, m);
        assert AckOf(a, v, l, term, n);
      }
      assert Backs(g, c, n, l, term, q);
    }
  }

  /** Progress is kept when follower entries are kept or dropped and the commit point stays or is already certified. */
  lemma {:induction false} ProgressFrame(g: Group, c: Cluster, i: NodeId, s: NodeState, s': NodeState)
    requires ProgressKept(g, c, i, s)
    requires i in c.held && s'.applied <= c.held[i]
    requires s'.followers == map[] || (s'.followers == s.followers && s'.term == s.term)
    requires QuorumMode(g) ==> Certified(g, c, s'.commit)
    ensures ProgressKept(g, c, i, s')
  {
  }

  lemma {:induction false} RecomputeProgress(g: Group, c: Cluster, i: NodeId, s: NodeState)
    requires ValidGroup(g) && i in g.configs && s.members == g.members && Won(c, s.term, i)
    requires ProgressKept(g, c, i, s)
    requires forall m :: m in c.msgs ==> MsgKept(g, c, m)
    ensures ProgressKept(g, c, i, Recompute(g.configs[i], s))
  {
    if QuorumMode(g) {
      RecomputeCertified(g, c, i, s);
    }
  }

  lemma {:induction false} SetAppliedProgress(g: Group, c: Cluster, i: NodeId, s: NodeState, sequence: u64,
                                              term: Option<u64>)
    requires ValidGroup(g) && i in g.configs && RoleKept(g, c, i, s) && ProgressKept(g, c, i, s)
    requires forall m :: m in c.msgs ==> MsgKept(g, c, m)
    requires sequence <= c.held[i]
    ensures ProgressKept(g, c, i, SetApplied(g.configs[i], s, sequence, term))
  {
    var s1 := s.(applied := sequence, appliedTerm := term);
    ProgressFrame(g, c, i, s, s1);
    if s.role == Leader {
      RecomputeProgress(g, c, i, s1);
    }
  }

  /** Recording a follower's progress that the follower really acknowledged. */
  lemma {:induction false} FollowerProgress(g: Group, c: Cluster, i: NodeId, s: NodeState, f: NodeId, p: Progress)
    requires ValidGroup(g) && i in g.configs && RoleKept(g, c, i, s) && ProgressKept(g, c, i, s) && s.role == Leader
    requires forall m :: m in c.msgs ==> MsgKept(g, c, m)
    requires p.lastAckTerm == s.term && (p.matchIndex > 0 ==> Acknowledged(c, f, i, s.term, p.matchIndex))
    ensures ProgressKept(g, c, i, Recompute(g.configs[i], s.(followers := s.followers[f := p])))
  {
    RecomputeProgress(g, c, i, s.(followers := s.followers[f := p]));
  }

  lemma {:induction false} AckProgress(g: Group, c: Cluster, i: NodeId, s: NodeState, m: Msg)
    requires ValidGroup(g) && i in g.configs && RoleKept(g, c, i, s) && ProgressKept(g, c, i, s)
    requires m in c.msgs && m.Acked? && forall x :: x in c.msgs ==> MsgKept(g, c, x)
    ensures ProgressKept(g, c, i, RegisterAck(g.configs[i], s, m.follower, m.sequence, m.term, m.leader))
  {
    if s.role == Leader && s.term == m.term && m.leader == g.configs[i].nodeId {
      assert AckOf(m, m.follower, i, s.term, m.sequence);
      FollowerProgress(g, c, i, s, m.follower, Progress(m.sequence, SatAdd(m.sequence, 1), m.term));
    }
  }

  lemma {:induction false} AppendProgress(g: Group, c: Cluster, i: NodeId, s: NodeState, m: Msg)
    requires ValidGroup(g) && i in g.configs && RoleKept(g, c, i, s) && ProgressKept(g, c, i, s)
    requires m in c.msgs && m.Appended? && forall x :: x in c.msgs ==> MsgKept(g, c, x)
    ensures ProgressKept(g, c, i, RecordAppend(g.configs[i], s, m.follower, m.accepted, m.sequence, m.term, m.leader))
  {
    if s.role == Leader && s.term == m.term && m.leader == g.configs[i].nodeId {
      var f := m.follower;
      var p := NextProgress(Lookup(s.followers, f), m.accepted, m.sequence, m.term);
      if p.matchIndex > 0 {
        if f in s.followers && p.matchIndex == s.followers[f].matchIndex {
          assert Acknowledged(c, f, i, s.term, p.matchIndex);
        } else {
          assert AckOf(m, f, i, s.term, p.matchIndex);
        }
      }
      FollowerProgress(g, c, i, s, f, p);
    }
  }

  lemma {:induction false} FollowProgress(g: Group, c: Cluster, i: NodeId, s: NodeState, hb: Heartbeat,
                                          members: Members, io: Io)
    requires ProgressKept(g, c, i, s) && MsgKept(g, c, Beat(hb)) && hb.term >= s.term
    ensures ProgressKept(g, c, i, FollowLeader(s, hb, members, io))
  {
    if QuorumMode(g) {
      CertifiedBelow(g, c, Min(hb.commit, s.applied), hb.commit);
    }
    ProgressFrame(g, c, i, s, FollowLeader(s, hb, members, io));
  }

  lemma {:induction false} ObserveCommitProgress(g: Group, c: Cluster, i: NodeId, s: NodeState, hb: Heartbeat)
    requires ProgressKept(g, c, i, s) && MsgKept(g, c, Beat(hb))
    ensures ProgressKept(g, c, i, ObserveCommit(s, hb.commit))
  {
    if QuorumMode(g) {
      CertifiedBelow(g, c, Min(hb.commit, s.applied), hb.commit);
    }
    ProgressFrame(g, c, i, s, ObserveCommit(s, hb.commit));
  }

  /** Elections, term changes, votes and restarts keep or drop progress, and never raise the commit point. */
  lemma {:induction false} ElectionStepFrame(g: Group, c: Cluster, e: Event)
    requires Enabled(g, c, e)
    requires e.step.BeginElectionStep? || e.step.VoteStep? || e.step.FinalizeStep? || e.step.ObserveTermStep?
             || e.step.RestartStep?
    ensures var s, s' := c.nodes[e.node], NodeAfter(g, c, e);
            && (s'.followers == map[] || (s'.followers == s.followers && s'.term == s.term))
            && s'.applied <= s.applied
            && (s'.commit == s.commit || s'.commit == 0)
  {
  }

  lemma {:induction false} StepProgress(g: Group, c: Cluster, e: Event, c': Cluster)
    requires ValidGroup(g) && Enabled(g, c, e) && Grows(c, c')
    requires RoleKept(g, c', e.node, c.nodes[e.node]) && ProgressKept(g, c', e.node, c.nodes[e.node])
    requires forall m :: m in c.msgs ==> MsgKept(g, c', m)
    requires forall m :: m in c'.msgs ==> MsgKept(g, c', m)
    requires e.node in c'.held && NodeAfter(g, c, e).applied <= c'.held[e.node]
    ensures ProgressKept(g, c', e.node, NodeAfter(g, c, e))
  {
    hide RegisterAck, RecordAppend, ObserveCommit, FollowLeader, HandleVote, FinalizeElection, ReachedPoint;
    var i, s := e.node, c.nodes[e.node];
    match e.step
    case SetAppliedStep(sequence, term) => SetAppliedProgress(g, c', i, s, sequence, term);
    case ReceiveAckStep(m) => AckProgress(g, c', i, s, m);
    case ReceiveAppendedStep(m) => AppendProgress(g, c', i, s, m);
    case ReceiveBeatStep(hb, io) =>
      assert MsgKept(g, c', Beat(hb));
      if hb.term >= s.term { FollowProgress(g, c', i, s, hb, hb.members, io); }
    case ReceiveStatusStep(hb, io) =>
      assert MsgKept(g, c', Beat(hb));
      if hb.term >= s.term {
        FollowProgress(g, c', i, s, hb, if hb.members == map[] then s.members else hb.members, io);
      }
    case ObserveCommitStep(hb) =>
      assert MsgKept(g, c', Beat(hb));
      ObserveCommitProgress(g, c', i, s, hb);
    case AskPrevoteStep =>
    case SendBeatStep =>
    case SendAckStep(_) =>
    case SendAppendedStep(_, _, _) =>
    case _ =>
      ElectionStepFrame(g, c, e);
      ProgressFrame(g, c', i, s, NodeAfter(g, c, e));
  }

  lemma {:induction false} StepMessages(g: Group, c: Cluster, e: Event, c': Cluster, m: Msg)
    requires ValidGroup(g) && Enabled(g, c, e) && Grows(c, c') && m in SentBy(g, c, e)
    requires VotesKept(g, c, e.node, c.nodes[e.node]) && ProgressKept(g, c', e.node, c.nodes[e.node])
    requires c'.grants == c.grants + GrantsOf(g, c, e)
    ensures MsgKept(g, c', m)
  {
  }

  // ---------------------------------------------------------------- every run

  lemma {:induction false} InitNode(g: Group, i: NodeId)
    requires ValidGroup(g) && i in g.configs
    ensures VotesKept(g, Init(g), i, Init(g).nodes[i]) && ProgressKept(g, Init(g), i, Init(g).nodes[i])
  {
    hide QuorumOf, Voters, Acknowledged;
    StartMembersFixed(g, i, None);
  }

  lemma {:induction false} InitInv(g: Group)
    requires ValidGroup(g)
    ensures Inv(g, Init(g))
  {
    hide VotesKept, ProgressKept, MsgKept, Start, Locked, Voters;
    forall i | i in g.configs
      ensures VotesKept(g, Init(g), i, Init(g).nodes[i]) && ProgressKept(g, Init(g), i, Init(g).nodes[i])
    {
      InitNode(g, i);
    }
  }

  /** The nodes that do not move keep their part of the invariant. */
  lemma {:induction false} StepOthers(g: Group, c: Cluster, e: Event, c': Cluster)
    requires Inv(g, c) && Enabled(g, c, e) && Grows(c, c')
    requires c'.grants == c.grants + GrantsOf(g, c, e)
    ensures forall j :: j in c.nodes && j != e.node ==>
              VotesKept(g, c', j, c.nodes[j]) && ProgressKept(g, c', j, c.nodes[j])
  {
    forall j | j in c.nodes && j != e.node
      ensures VotesKept(g, c', j, c.nodes[j]) && ProgressKept(g, c', j, c.nodes[j])
    {
      VotesGrow(g, c, c', j, c.nodes[j]);
      ProgressGrows(g, c, c', j, c.nodes[j]);
    }
  }

  lemma {:induction false} StepMover(g: Group, c: Cluster, e: Event, c': Cluster)
    requires ValidGroup(g) && Inv(g, c) && Enabled(g, c, e) && Grows(c, c')
    requires c'.msgs == c.msgs + SentBy(g, c, e) && c'.grants == c.grants + GrantsOf(g, c, e)
    requires c'.wins == WinsAfter(g, c, e)
    requires e.node in c'.held && NodeAfter(g, c, e).applied <= c'.held[e.node]
    ensures VotesKept(g, c', e.node, NodeAfter(g, c, e)) && ProgressKept(g, c', e.node, NodeAfter(g, c, e))
    ensures forall m :: m in c'.msgs ==> MsgKept(g, c', m)
  {
    var s := c.nodes[e.node];
    assert VotesKept(g, c, e.node, s) && ProgressKept(g, c, e.node, s);
    StepVotes(g, c, e, c');
    ProgressGrows(g, c, c', e.node, s);
    forall m | m in c'.msgs ensures MsgKept(g, c', m) {
      if m in c.msgs {
        MsgGrows(g, c, c', m);
      } else {
        StepMessages(g, c, e, c', m);
      }
    }
    StepProgress(g, c, e, c');
  }

  lemma {:induction false} Assemble(g: Group, c: Cluster, i: NodeId, s: NodeState, c': Cluster)
    requires c.nodes.Keys == g.configs.Keys && i in c.nodes && c'.nodes == c.nodes[i := s]
    requires forall j :: j in c.nodes && j != i ==>
               VotesKept(g, c', j, c.nodes[j]) && ProgressKept(g, c', j, c.nodes[j])
    requires VotesKept(g, c', i, s) && ProgressKept(g, c', i, s)
    requires forall m :: m in c'.msgs ==> MsgKept(g, c', m)
    requires GrantsKept(g, c') && WinsKept(g, c')
    ensures Inv(g, c')
  {
  }

  /** Every step of every node keeps the invariant. */
  lemma {:induction false} StepInv(g: Group, c: Cluster, e: Event)
    requires ValidGroup(g) && Inv(g, c) && Enabled(g, c, e)
    ensures Inv(g, After(g, c, e))
  {
    var c' := After(g, c, e);
    AfterGrows(g, c, e);
    StepMover(g, c, e, c');
    StepOthers(g, c, e, c');
    StepHistory(g, c, e, c');
    Assemble(g, c, e.node, NodeAfter(g, c, e), c');
  }

  lemma {:induction false} StepHistory(g: Group, c: Cluster, e: Event, c': Cluster)
    requires ValidGroup(g) && Inv(g, c) && Enabled(g, c, e) && Grows(c, c')
    requires c'.grants == c.grants + GrantsOf(g, c, e) && c'.wins == WinsAfter(g, c, e)
    ensures GrantsKept(g, c') && WinsKept(g, c')
  {
    assert VotesKept(g, c, e.node, c.nodes[e.node]);
    StepGrants(g, c, e, c');
    GrantsDelta(g, c, c');
    StepWins(g, c, e, c');
  }

  lemma {:induction false} RunInv(g: Group, c: Cluster, events: seq<Event>, c': Cluster)
    requires ValidGroup(g) && Inv(g, c) && IsRun(g, c, events, c')
    ensures Inv(g, c')
    decreases |events|
  {
    if events != [] {
      StepInv(g, c, events[0]);
      RunInv(g, After(g, c, events[0]), events[1..], c');
    }
  }

  lemma {:induction false} ReachableInv(g: Group, c: Cluster)
    requires ValidGroup(g) && Reachable(g, c)
    ensures Inv(g, c)
  {
    var events :| IsRun(g, Init(g), events, c);
    InitInv(g);
    RunInv(g, Init(g), events, c);
  }

  ghost predicate OneLeaderPerTerm(c: Cluster) {
    forall i, j :: i in c.nodes && j in c.nodes && LeadTogether(c.nodes[i], c.nodes[j]) ==> i == j
  }

  ghost predicate LeadTogether(s: NodeState, t: NodeState) {
    s.role == Leader && t.role == Leader && s.term == t.term && s.term < U64_MAX
  }

  lemma {:induction false} InvSafe(g: Group, c: Cluster)
    requires Inv(g, c)
    ensures UniqueWinners(c) && OneLeaderPerTerm(c)
  {
    forall i, j | i in c.nodes && j in c.nodes && LeadTogether(c.nodes[i], c.nodes[j]) ensures i == j {
      assert VotesKept(g, c, i, c.nodes[i]) && VotesKept(g, c, j, c.nodes[j]);
      assert (c.nodes[i].term, i) in c.wins && (c.nodes[j].term, j) in c.wins;
    }
  }

  /**
    Election safety.  In every reachable state of the group, whatever was lost, repeated, reordered, crashed or
    failed to reach a disk, no term below the saturation point `u64::MAX` has been won by two nodes, and no two
    nodes lead in the same such term.
   */
  lemma {:induction false} ElectionSafety(g: Group, c: Cluster)
    requires ValidGroup(g) && Reachable(g, c)
    ensures UniqueWinners(c) && OneLeaderPerTerm(c)
  {
    ReachableInv(g, c);
    InvSafe(g, c);
  }

  ghost predicate CommitsBacked(g: Group, c: Cluster) {
    forall i :: i in c.nodes ==> Certified(g, c, c.nodes[i].commit)
  }

  lemma {:induction false} InvBacked(g: Group, c: Cluster)
    requires Inv(g, c) && QuorumMode(g)
    ensures CommitsBacked(g, c)
  {
    forall i | i in c.nodes ensures Certified(g, c, c.nodes[i].commit) {
      assert ProgressKept(g, c, i, c.nodes[i]);
    }
  }

  /**
    Commit soundness.  When every node waits for a quorum, any commit point above zero on any node is backed by
    an elected leader and a quorum of voters, each of which once held that sequence and, unless it is the leader
    itself, acknowledged it to that leader in that term.
   */
  lemma {:induction false} CommitSoundness(g: Group, c: Cluster)
    requires ValidGroup(g) && QuorumMode(g) && Reachable(g, c)
    ensures CommitsBacked(g, c)
  {
    ReachableInv(g, c);
    InvBacked(g, c);
  }
}
