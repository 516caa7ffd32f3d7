/** What each node's counters do along a run: its term, its commit point, and the bound between commit and applied. */
module ClusterCounters {
  import opened Base
  import opened Quorum
  import opened Replication
  import opened Cluster
  import opened ClusterLimits

  ghost function DiskTerm(s: NodeState): u64 {
    if s.disk.Some? then s.disk.value.term else 0
  }

  ghost predicate CountersKept(s: NodeState, s': NodeState) {
    s.term <= s'.term && DiskTerm(s) <= DiskTerm(s') <= s'.term && s.commit <= s'.commit
  }

  predicate ElectionStep(step: Step) {
    step.BeginElectionStep? || step.FinalizeStep? || step.ObserveTermStep?
  }

  lemma {:induction false} VoteCounters(g: Group, c: Cluster, e: Event)
    requires Enabled(g, c, e) && e.step.VoteStep? && DiskTerm(c.nodes[e.node]) <= c.nodes[e.node].term
    ensures CountersKept(c.nodes[e.node], NodeAfter(g, c, e))
  {
    hide BeginElection, FinalizeElection, ObserveTerm, HandleHeartbeat, ObserveStatus, SetApplied, ObserveCommit,
         GrantsVote, GrantsPrevote, RegisterAck, RecordAppend, Start;
  }

  lemma {:induction false} ElectionCounters(g: Group, c: Cluster, e: Event)
    requires Enabled(g, c, e) && ElectionStep(e.step) && c.nodes[e.node].role != Standalone
    requires DiskTerm(c.nodes[e.node]) <= c.nodes[e.node].term
    ensures CountersKept(c.nodes[e.node], NodeAfter(g, c, e))
  {
    hide HandleVote, HandleHeartbeat, ObserveStatus, SetApplied, ObserveCommit, RegisterAck, RecordAppend;
  }

  lemma {:induction false} ProgressCounters(g: Group, c: Cluster, e: Event)
    requires Enabled(g, c, e) && c.nodes[e.node].role != Standalone
    requires !ElectionStep(e.step) && !e.step.VoteStep? && !e.step.RestartStep?
    requires DiskTerm(c.nodes[e.node]) <= c.nodes[e.node].term
    ensures CountersKept(c.nodes[e.node], NodeAfter(g, c, e))
  {
    hide BeginElection, HandleVote, FinalizeElection, ObserveTerm, ReachedPoint;
  }

  /** No node stands alone, and what is durable is not ahead of what is current. */
  ghost predicate Sane(c: Cluster) {
    forall i :: i in c.nodes ==> NodeSane(c.nodes[i])
  }

  ghost predicate NodeSane(s: NodeState) {
    s.role != Standalone && DiskTerm(s) <= s.term
  }

  /** Outside a restart no handler lowers the term, the durable term or the commit point. */
  lemma {:induction false} StepCounters(g: Group, c: Cluster, e: Event)
    requires Enabled(g, c, e) && !e.step.RestartStep? && NodeSane(c.nodes[e.node])
    ensures CountersKept(c.nodes[e.node], NodeAfter(g, c, e))
  {
    hide NodeAfter, CountersKept;
    if e.step.VoteStep? {
      VoteCounters(g, c, e);
    } else if ElectionStep(e.step) {
      ElectionCounters(g, c, e);
    } else {
      ProgressCounters(g, c, e);
    }
  }

  lemma {:induction false} RolesKept(g: Group, c: Cluster, e: Event)
    requires ValidGroup(g) && Enabled(g, c, e) && c.nodes[e.node].role != Standalone
    ensures NodeAfter(g, c, e).role != Standalone
  {
    hide NodeAfter;
    if e.step.VoteStep? {
      VoteFrame(g, c, e);
    } else {
      OtherRoles(g, c, e);
    }
  }

  /** A vote moves the term and the vote, and a role only to follower. */
  lemma {:induction false} VoteFrame(g: Group, c: Cluster, e: Event)
    requires Enabled(g, c, e) && e.step.VoteStep?
    ensures var s, s' := c.nodes[e.node], NodeAfter(g, c, e);
            s'.commit == s.commit && s'.applied == s.applied && (s.role != Standalone ==> s'.role != Standalone)
  {
    hide BeginElection, FinalizeElection, ObserveTerm, HandleHeartbeat, ObserveStatus, SetApplied, ObserveCommit,
         GrantsVote, GrantsPrevote, RegisterAck, RecordAppend, Start;
  }

  lemma {:induction false} OtherRoles(g: Group, c: Cluster, e: Event)
    requires ValidGroup(g) && Enabled(g, c, e) && c.nodes[e.node].role != Standalone && !e.step.VoteStep?
    ensures NodeAfter(g, c, e).role != Standalone
  {
    hide HandleVote, CommitCandidate, Max, Min;
  }

  /** A restart keeps the term exactly when it was durable, and forgets the commit point. */
  lemma {:induction false} RestartCounters(g: Group, c: Cluster, e: Event)
    requires Enabled(g, c, e) && e.step.RestartStep? && NodeSane(c.nodes[e.node])
    ensures var s, s' := c.nodes[e.node], NodeAfter(g, c, e);
            && DiskTerm(s') == s'.term
            && (s.term <= s'.term <==> DiskTerm(s) == s.term) && (s.commit <= s'.commit <==> s.commit == 0)
  {
  }

  lemma {:induction false} SaneStep(g: Group, c: Cluster, e: Event)
    requires ValidGroup(g) && Sane(c) && Enabled(g, c, e)
    ensures Sane(After(g, c, e))
  {
    hide NodeAfter, SentBy, GrantsOf, WinsAfter;
    assert NodeSane(c.nodes[e.node]);
    RolesKept(g, c, e);
    if e.step.RestartStep? {
      RestartCounters(g, c, e);
    } else {
      StepCounters(g, c, e);
    }
  }

  lemma {:induction false} SaneRun(g: Group, c: Cluster, events: seq<Event>, c': Cluster)
    requires ValidGroup(g) && Sane(c) && IsRun(g, c, events, c')
    ensures Sane(c')
    decreases |events|
  {
    hide Sane, Enabled, After;
    if events != [] {
      SaneStep(g, c, events[0]);
      SaneRun(g, After(g, c, events[0]), events[1..], c');
    }
  }

  lemma {:induction false} InitSane(g: Group)
    requires ValidGroup(g)
    ensures Sane(Init(g))
  {
  }

  lemma {:induction false} ReachableSane(g: Group, c: Cluster)
    requires ValidGroup(g) && Reachable(g, c)
    ensures Sane(c)
  {
    hide Sane;
    var events :| IsRun(g, Init(g), events, c);
    InitSane(g);
    SaneRun(g, Init(g), events, c);
  }

  // ---------------------------------------------------------------- one process lifetime

  /** The node does not restart during these events. */
  ghost predicate Stays(i: NodeId, events: seq<Event>) {
    forall k :: 0 <= k < |events| ==> !(events[k].node == i && events[k].step.RestartStep?)
  }

  lemma {:induction false} LifetimeRun(g: Group, c: Cluster, events: seq<Event>, c': Cluster, i: NodeId)
    requires ValidGroup(g) && Sane(c) && IsRun(g, c, events, c') && i in c.nodes && Stays(i, events)
    ensures i in c'.nodes && c.nodes[i].term <= c'.nodes[i].term && c.nodes[i].commit <= c'.nodes[i].commit
    decreases |events|
  {
    hide NodeAfter, SentBy, GrantsOf, WinsAfter, NodeSane, Enabled;
    if events != [] {
      var e, next := events[0], After(g, c, events[0]);
      SaneStep(g, c, e);
      OthersStay(g, c, e);
      if e.node == i {
        StepCounters(g, c, e);
      }
      LifetimeRun(g, next, events[1..], c', i);
    }
  }

  lemma {:induction false} OthersStay(g: Group, c: Cluster, e: Event)
    requires Enabled(g, c, e)
    ensures After(g, c, e).nodes == c.nodes[e.node := NodeAfter(g, c, e)] && e.node in c.nodes
  {
  }

  /**
    From any reachable cluster on, whatever is lost, repeated or fails to reach a disk, a node's term and commit point
    never fall as long as it does not restart.
   */
  lemma {:induction false} CountersNeverDecrease(g: Group, c: Cluster, events: seq<Event>, c': Cluster, i: NodeId)
    requires ValidGroup(g) && Reachable(g, c) && IsRun(g, c, events, c') && i in c.nodes && Stays(i, events)
    ensures i in c'.nodes && c.nodes[i].term <= c'.nodes[i].term && c.nodes[i].commit <= c'.nodes[i].commit
  {
    hide IsRun, Sane;
    ReachableSane(g, c);
    LifetimeRun(g, c, events, c', i);
  }

  // ---------------------------------------------------------------- terms across restarts

  /** No event lowers the term of its node. */
  ghost predicate TermsRise(g: Group, c: Cluster, events: seq<Event>)
    decreases |events|
  {
    events == []
    || (&& Enabled(g, c, events[0]) && c.nodes[events[0].node].term <= NodeAfter(g, c, events[0]).term
        && TermsRise(g, After(g, c, events[0]), events[1..]))
  }

  /** Every restart finds the current term on disk. */
  ghost predicate RestartsCurrent(g: Group, c: Cluster, events: seq<Event>)
    decreases |events|
  {
    events == []
    || (&& Enabled(g, c, events[0]) && RestartCurrent(c, events[0])
        && RestartsCurrent(g, After(g, c, events[0]), events[1..]))
  }

  ghost predicate RestartCurrent(c: Cluster, e: Event) {
    e.step.RestartStep? && e.node in c.nodes ==> DiskTerm(c.nodes[e.node]) == c.nodes[e.node].term
  }

  lemma {:induction false} TermStepExactly(g: Group, c: Cluster, e: Event)
    requires Sane(c) && Enabled(g, c, e)
    ensures c.nodes[e.node].term <= NodeAfter(g, c, e).term <==> RestartCurrent(c, e)
  {
    hide NodeAfter;
    assert NodeSane(c.nodes[e.node]);
    if e.step.RestartStep? {
      RestartCounters(g, c, e);
    } else {
      StepCounters(g, c, e);
    }
  }

  lemma {:induction false} TermsRunExactly(g: Group, c: Cluster, events: seq<Event>, c': Cluster)
    requires ValidGroup(g) && Sane(c) && IsRun(g, c, events, c')
    ensures TermsRise(g, c, events) <==> RestartsCurrent(g, c, events)
    ensures RestartsCurrent(g, c, events) ==> TermsAtLeast(c, c')
    decreases |events|
  {
    hide NodeAfter, Sane, RestartCurrent, Enabled, SentBy, GrantsOf, WinsAfter;
    if events != [] {
      var e, next := events[0], After(g, c, events[0]);
      SaneStep(g, c, e);
      TermStepExactly(g, c, e);
      OthersStay(g, c, e);
      TermsRunExactly(g, next, events[1..], c');
      if RestartsCurrent(g, c, events) {
        TermsCompose(c, next, c');
      }
    }
  }

  /**
    Over every run, restarts included, no node's term ever falls exactly when every restart finds its node's current
    term on disk.
   */
  lemma {:induction false} TermsExactly(g: Group, events: seq<Event>, c: Cluster)
    requires ValidGroup(g) && IsRun(g, Init(g), events, c)
    ensures TermsRise(g, Init(g), events) <==> RestartsCurrent(g, Init(g), events)
    ensures RestartsCurrent(g, Init(g), events) ==> TermsAtLeast(Init(g), c)
  {
    hide Sane, IsRun, TermsRise, RestartsCurrent, TermsAtLeast, Init;
    InitSane(g);
    TermsRunExactly(g, Init(g), events, c);
  }

  /** Every durable write of the step succeeds. */
  predicate AllWritten(step: Step) {
    match step
    case BeginElectionStep(io) => io.Written?
    case VoteStep(_, _, a, b) => a.Written? && b.Written?
    case FinalizeStep(_, _, io) => io.Written?
    case ObserveTermStep(_, io) => io.Written?
    case ReceiveBeatStep(_, io) => io.Written?
    case ReceiveStatusStep(_, io) => io.Written?
    case _ => true
  }

  /** The durable term and vote are the node's current ones. */
  ghost predicate DiskCurrent(s: NodeState) {
    if s.disk.Some? then s.disk.value.term == s.term && s.disk.value.votedFor == s.votedFor
    else s.term == 0 && s.votedFor == None
  }

  lemma {:induction false} DiskStaysCurrent(g: Group, c: Cluster, e: Event)
    requires Enabled(g, c, e) && AllWritten(e.step) && DiskCurrent(c.nodes[e.node])
    ensures DiskCurrent(NodeAfter(g, c, e))
    ensures c.nodes[e.node].term <= NodeAfter(g, c, e).term
  {
  }

  ghost predicate AllDisksCurrent(c: Cluster) {
    forall i :: i in c.nodes ==> DiskCurrent(c.nodes[i])
  }

  ghost predicate TermsAtLeast(c: Cluster, c': Cluster) {
    forall i :: i in c.nodes ==> i in c'.nodes && c.nodes[i].term <= c'.nodes[i].term
  }

  lemma {:induction false} TermsCompose(a: Cluster, b: Cluster, c: Cluster)
    requires TermsAtLeast(a, b) && TermsAtLeast(b, c)
    ensures TermsAtLeast(a, c)
  {
  }

  lemma {:induction false} TermsStep(g: Group, c: Cluster, e: Event)
    requires Enabled(g, c, e) && AllWritten(e.step) && AllDisksCurrent(c)
    ensures AllDisksCurrent(After(g, c, e)) && TermsAtLeast(c, After(g, c, e))
  {
    DiskStaysCurrent(g, c, e);
  }

  /** While no durable write fails, no node's term ever decreases, restarts included. */
  lemma {:induction false} TermsNeverDecrease(g: Group, c: Cluster, events: seq<Event>, c': Cluster)
    requires IsRun(g, c, events, c')
    requires AllDisksCurrent(c) && forall k :: 0 <= k < |events| ==> AllWritten(events[k].step)
    ensures AllDisksCurrent(c') && TermsAtLeast(c, c')
    decreases |events|
  {
    if events != [] {
      TermsStep(g, c, events[0]);
      TermsNeverDecrease(g, After(g, c, events[0]), events[1..], c');
      TermsCompose(c, After(g, c, events[0]), c');
    }
  }

  /** A candidacy whose write is lost, then a crash: the node comes back in the term before. */
  lemma {:induction false} LostWriteLowersTerm() returns (events: seq<Event>, c: Cluster, c': Cluster)
    ensures ValidGroup(THREE) && IsRun(THREE, Init(THREE), events, c) && IsRun(THREE, c, [Event(0, RestartStep)], c')
    ensures 0 in c.nodes && 0 in c'.nodes && c.nodes[0].term == 1 && c'.nodes[0].term == 0
    ensures !RestartsCurrent(THREE, c, [Event(0, RestartStep)])
  {
    hide Enabled, After, NodeAfter, Init, ValidGroup, Voters, QuorumOf;
    ThreeValid();
    var stand, crash := Event(0, BeginElectionStep(LostWrite)), Event(0, RestartStep);
    var start := Init(THREE);
    FreshStart();
    UnwrittenCandidacy(start);
    events, c := [stand], After(THREE, start, stand);
    assert [stand][1..] == [] && IsRun(THREE, c, [], c);
    Comeback(c);
    c' := After(THREE, c, crash);
    assert [crash][1..] == [] && IsRun(THREE, c', [], c');
  }

  lemma {:induction false} FreshStart()
    ensures Trio(Init(THREE)) && Init(THREE).nodes[0] == FRESH
  {
    ThreeValid();
    assert Start(THREE.configs[0], None) == FRESH;
  }

  lemma {:induction false} UnwrittenCandidacy(c: Cluster)
    requires Trio(c) && c.nodes[0] == FRESH && THREE.configs.Keys == {0, 1, 2}
    ensures var e := Event(0, BeginElectionStep(LostWrite));
            && Enabled(THREE, c, e) && Trio(After(THREE, c, e))
            && After(THREE, c, e).nodes[0].term == 1 && After(THREE, c, e).nodes[0].disk == None
  {
    hide HandleVote, FinalizeElection, HandleHeartbeat, ObserveStatus, RegisterAck, RecordAppend, SetApplied;
  }

  lemma {:induction false} Comeback(c: Cluster)
    requires Trio(c) && c.nodes[0].disk == None && THREE.configs.Keys == {0, 1, 2}
    ensures var e := Event(0, RestartStep);
            Enabled(THREE, c, e) && 0 in After(THREE, c, e).nodes && After(THREE, c, e).nodes[0].term == 0
  {
    hide HandleVote, FinalizeElection, HandleHeartbeat, ObserveStatus, RegisterAck, RecordAppend, SetApplied;
  }

  // ---------------------------------------------------------------- the commit bound

  ghost predicate Bounded(c: Cluster) {
    forall i :: i in c.nodes ==> c.nodes[i].commit <= c.nodes[i].applied
  }

  /** An event that sets a node's applied sequence below its commit point. */
  ghost predicate Undercuts(c: Cluster, e: Event) {
    e.node in c.nodes && e.step.SetAppliedStep? && e.step.sequence < c.nodes[e.node].commit
  }

  /** `commit <= applied` survives a handler exactly when that handler does not rewind the log below the commit. */
  lemma {:induction false} CommitStepExactly(g: Group, c: Cluster, e: Event)
    requires Enabled(g, c, e) && c.nodes[e.node].role != Standalone
    requires c.nodes[e.node].commit <= c.nodes[e.node].applied
    ensures NodeAfter(g, c, e).commit <= NodeAfter(g, c, e).applied <==> !Undercuts(c, e)
  {
    hide NodeAfter;
    if e.step.VoteStep? {
      VoteFrame(g, c, e);
    } else {
      OtherBound(g, c, e);
    }
  }

  lemma {:induction false} OtherBound(g: Group, c: Cluster, e: Event)
    requires Enabled(g, c, e) && c.nodes[e.node].role != Standalone && !e.step.VoteStep?
    requires c.nodes[e.node].commit <= c.nodes[e.node].applied
    ensures NodeAfter(g, c, e).commit <= NodeAfter(g, c, e).applied <==> !Undercuts(c, e)
  {
    hide HandleVote, CommitCandidate, HandleHeartbeat, ObserveStatus;
    if e.step.ReceiveBeatStep? || e.step.ReceiveStatusStep? {
      BeatBound(g, c, e);
    }
  }

  lemma {:induction false} BeatBound(g: Group, c: Cluster, e: Event)
    requires Enabled(g, c, e) && (e.step.ReceiveBeatStep? || e.step.ReceiveStatusStep?)
    requires c.nodes[e.node].commit <= c.nodes[e.node].applied
    ensures NodeAfter(g, c, e).commit <= NodeAfter(g, c, e).applied
  {
    hide HandleVote, CommitCandidate, BeginElection, FinalizeElection, ObserveTerm, SetApplied, ObserveCommit,
         RegisterAck, RecordAppend, Start;
  }

  /** The bound holds in every state along the run. */
  ghost predicate BoundedAlong(g: Group, c: Cluster, events: seq<Event>)
    decreases |events|
  {
    Bounded(c)
    && (events == [] || (Enabled(g, c, events[0]) && BoundedAlong(g, After(g, c, events[0]), events[1..])))
  }

  ghost predicate NeverUndercut(g: Group, c: Cluster, events: seq<Event>)
    decreases |events|
  {
    events == []
    || (&& Enabled(g, c, events[0]) && !Undercuts(c, events[0])
        && NeverUndercut(g, After(g, c, events[0]), events[1..]))
  }

  lemma {:induction false} BoundedStep(g: Group, c: Cluster, e: Event)
    requires Sane(c) && Bounded(c) && Enabled(g, c, e)
    ensures Bounded(After(g, c, e)) <==> !Undercuts(c, e)
  {
    hide NodeAfter, SentBy, GrantsOf, WinsAfter, Enabled, Undercuts;
    OthersStay(g, c, e);
    assert NodeSane(c.nodes[e.node]);
    CommitStepExactly(g, c, e);
    var next := After(g, c, e);
    assert next.nodes[e.node] == NodeAfter(g, c, e);
  }

  lemma {:induction false} BoundedRun(g: Group, c: Cluster, events: seq<Event>, c': Cluster)
    requires ValidGroup(g) && Sane(c) && Bounded(c) && IsRun(g, c, events, c')
    ensures BoundedAlong(g, c, events) <==> NeverUndercut(g, c, events)
    ensures NeverUndercut(g, c, events) ==> Bounded(c')
    decreases |events|
  {
    hide Sane, Bounded, Undercuts, Enabled, After;
    if events != [] {
      SaneStep(g, c, events[0]);
      BoundedStep(g, c, events[0]);
      if Bounded(After(g, c, events[0])) {
        BoundedRun(g, After(g, c, events[0]), events[1..], c');
      }
    }
  }

  /**
    Over every run, no node's commit point ever passes what it has applied exactly when no applied sequence is ever
    set below the commit point.
   */
  lemma {:induction false} CommitBoundExactly(g: Group, events: seq<Event>, c: Cluster)
    requires ValidGroup(g) && IsRun(g, Init(g), events, c)
    ensures BoundedAlong(g, Init(g), events) <==> NeverUndercut(g, Init(g), events)
    ensures NeverUndercut(g, Init(g), events) ==> Bounded(c)
  {
    hide Sane, IsRun, BoundedAlong, NeverUndercut;
    InitSane(g);
    assert Bounded(Init(g));
    BoundedRun(g, Init(g), events, c);
  }

  // ---------------------------------------------------------------- the bound can break

  /** Node 0 leads term 1 of three. */
  ghost predicate Leads(c: Cluster) {
    && Trio(c) && c.nodes[0].role == Leader && c.nodes[0].term == 1 && c.nodes[0].members == TRIO
  }

  lemma {:induction false} ElectedNode(c: Cluster)
    requires Trio(c) && c.nodes[0].role == Candidate && c.nodes[0].term == 1 && c.nodes[0].members == TRIO
    requires VoteGranted(1, 0, 1) in c.msgs
    ensures var e := Event(0, FinalizeStep(1, {1}, Written)); Enabled(THREE, c, e) && Leads(After(THREE, c, e))
  {
    hide Enabled, NodeAfter, After, SentBy;
    FinalizeEffect(c, 0, 1, 1);
    EventMoves(c, Event(0, FinalizeStep(1, {1}, Written)));
    ElectedState(c);
  }

  lemma {:induction false} ElectedState(c: Cluster)
    requires var e := Event(0, FinalizeStep(1, {1}, Written)); Enabled(THREE, c, e) && WinsElection(THREE, c, e)
    requires Trio(c) && c.nodes[0].term == 1 && c.nodes[0].members == TRIO
    ensures var s := NodeAfter(THREE, c, Event(0, FinalizeStep(1, {1}, Written)));
            s.role == Leader && s.term == 1 && s.members == TRIO
  {
    hide HandleVote, HandleHeartbeat, ObserveStatus, RegisterAck, RecordAppend, SetApplied, Start;
  }

  lemma {:induction false} Elected() returns (c: Cluster)
    ensures Reachable(THREE, c) && Leads(c)
  {
    hide Reachable, Enabled, After, NodeAfter, SentBy;
    var c0 := Climb(1);
    VoteEffect(c0, 1, 0, 1);
    EventMoves(c0, Vote(1, 0, 1));
    var c1 := Then(c0, Vote(1, 0, 1));
    ElectedNode(c1);
    c := Then(c1, Event(0, FinalizeStep(1, {1}, Written)));
  }

  lemma {:induction false} AppliedEffect(c: Cluster, i: NodeId, sequence: u64)
    requires Leads(c) && i in {0, 1}
    ensures var e := Event(i, SetAppliedStep(sequence, Some(1)));
            var c' := After(THREE, c, e);
            && Enabled(THREE, c, e) && Leads(c') && c'.nodes[i].applied == sequence && c.msgs <= c'.msgs
            && (i != 0 ==> c'.nodes[0] == c.nodes[0]) && c'.nodes[0].followers == c.nodes[0].followers
            && c.nodes[0].commit <= c'.nodes[0].commit
  {
    hide After, NodeAfter, SentBy, SetApplied;
    ThreeValid();
    var e := Event(i, SetAppliedStep(sequence, Some(1)));
    AppliedState(THREE.configs[i], c.nodes[i], sequence);
    AppliedNode(c, e);
    EventMoves(c, e);
  }

  lemma {:induction false} AppliedNode(c: Cluster, e: Event)
    requires Trio(c) && e.node in {0, 1} && e.step.SetAppliedStep? && THREE.configs.Keys == {0, 1, 2}
    ensures Enabled(THREE, c, e)
    ensures NodeAfter(THREE, c, e) ==
            SetApplied(THREE.configs[e.node], c.nodes[e.node], e.step.sequence, e.step.lastTerm)
  {
    hide HandleVote, FinalizeElection, HandleHeartbeat, ObserveStatus, RegisterAck, RecordAppend, Start, SetApplied;
  }

  lemma {:induction false} AppliedState(config: Config, s: NodeState, sequence: u64)
    ensures var s' := SetApplied(config, s, sequence, Some(1));
            && s' == s.(applied := sequence, appliedTerm := Some(1), commit := s'.commit)
            && (s.role == Leader ==> s.commit <= s'.commit)
  {
    hide CommitCandidate;
  }

  lemma {:induction false} BeatSent(c: Cluster) returns (hb: Heartbeat)
    requires Leads(c)
    ensures var e := Event(0, SendBeatStep); var c' := After(THREE, c, e);
            Enabled(THREE, c, e) && Leads(c') && c'.nodes[0] == c.nodes[0] && Beat(hb) in c'.msgs
    ensures hb.term == 1 && hb.leader == 0
  {
    hide After;
    hide HandleVote, FinalizeElection, HandleHeartbeat, ObserveStatus, RegisterAck, RecordAppend, SetApplied, Start;
    ThreeValid();
    EventMoves(c, Event(0, SendBeatStep));
    hb := HeartbeatPayload(THREE.configs[0], c.nodes[0]).value;
  }

  lemma {:induction false} AckSent(c: Cluster, hb: Heartbeat)
    requires Leads(c) && Beat(hb) in c.msgs && hb.term == 1 && hb.leader == 0
    ensures var e := Event(1, SendAckStep(hb)); var c' := After(THREE, c, e);
            && Enabled(THREE, c, e) && Leads(c') && c'.nodes[0] == c.nodes[0]
            && Acked(1, 0, 1, c.nodes[1].applied) in c'.msgs
  {
    hide After;
    hide HandleVote, FinalizeElection, HandleHeartbeat, ObserveStatus, RegisterAck, RecordAppend, SetApplied, Start;
    ThreeValid();
    EventMoves(c, Event(1, SendAckStep(hb)));
  }

  /** What a quorum has reached, the quorum point has. */
  lemma {:induction false} PointAtLeast(voters: set<NodeId>, matchOf: NodeId -> u64, need: nat, c: u64)
    requires 0 < need <= |voters| && |Reaching(voters, matchOf, c)| >= need
    ensures ReachedPoint(voters, matchOf, need, U64_MAX) >= c
  {
    forall d: nat | d > U64_MAX ensures |Reaching(voters, matchOf, d)| < need {
      assert Reaching(voters, matchOf, d) == {};
    }
    ReachedPointIsGreatest(voters, matchOf, need, U64_MAX);
  }

  lemma {:induction false} TwoReach(voters: set<NodeId>, matchOf: NodeId -> u64)
    requires 0 in voters && 1 in voters && matchOf(0) >= 1 && matchOf(1) >= 1
    ensures |Reaching(voters, matchOf, 1)| >= 2
  {
    SubsetSize({0, 1}, Reaching(voters, matchOf, 1));
  }

  /** Two of three voters have the first entry: the leader commits it. */
  lemma {:induction false} QuorumCommits(config: Config, s: NodeState)
    requires config.mode == Replica && config.nodeId == 0 && s.members == TRIO && s.applied == 1
    requires 1 in s.followers && s.followers[1].matchIndex == 1
    ensures Recompute(config, s).commit >= 1
  {
    hide Voters, QuorumOf, ReachedPoint, Reaching;
    ThreeValid();
    var voters, matchOf := Voters(TRIO), MatchOf(0, s.applied, s.followers);
    TwoReach(voters, matchOf);
    PointAtLeast(voters, matchOf, 2, 1);
  }

  lemma {:induction false} AckReceived(c: Cluster)
    requires Leads(c) && c.nodes[0].applied == 1 && Acked(1, 0, 1, 1) in c.msgs
    ensures var e := Event(0, ReceiveAckStep(Acked(1, 0, 1, 1))); var c' := After(THREE, c, e);
            Enabled(THREE, c, e) && Leads(c') && c'.nodes[0].commit >= 1
  {
    hide After, Recompute;
    hide HandleVote, FinalizeElection, HandleHeartbeat, ObserveStatus, RecordAppend, SetApplied, Start;
    ThreeValid();
    var s := c.nodes[0];
    var acked := s.(followers := s.followers[1 := Progress(1, SatAdd(1, 1), 1)]);
    QuorumCommits(THREE.configs[0], acked);
    RecomputeFrame(THREE.configs[0], acked);
    EventMoves(c, Event(0, ReceiveAckStep(Acked(1, 0, 1, 1))));
  }

  lemma {:induction false} RecomputeFrame(config: Config, s: NodeState)
    ensures Recompute(config, s) == s.(commit := Recompute(config, s).commit)
  {
  }

  /** A leader commits its first entry with a follower's acknowledgement, and its log is then cut below it. */
  lemma {:induction false} CommitPassesApplied() returns (c: Cluster)
    ensures ValidGroup(THREE) && Reachable(THREE, c) && 0 in c.nodes && c.nodes[0].commit > c.nodes[0].applied
  {
    hide Reachable, Enabled, After, NodeAfter, SentBy;
    ThreeValid();
    var c0 := Elected();
    AppliedEffect(c0, 0, 1);
    var c1 := Then(c0, Event(0, SetAppliedStep(1, Some(1))));
    AppliedEffect(c1, 1, 1);
    var c2 := Then(c1, Event(1, SetAppliedStep(1, Some(1))));
    var hb := BeatSent(c2);
    BeatLeaves(c2);
    var c3 := Then(c2, Event(0, SendBeatStep));
    AckSent(c3, hb);
    var c4 := Then(c3, Event(1, SendAckStep(hb)));
    AckReceived(c4);
    var c5 := Then(c4, Event(0, ReceiveAckStep(Acked(1, 0, 1, 1))));
    AppliedEffect(c5, 0, 0);
    c := Then(c5, Event(0, SetAppliedStep(0, Some(1))));
  }

  /** Sending a heartbeat moves no other node. */
  lemma {:induction false} BeatLeaves(c: Cluster)
    requires Leads(c)
    ensures var e := Event(0, SendBeatStep); Enabled(THREE, c, e) && After(THREE, c, e).nodes[1] == c.nodes[1]
  {
    hide After, NodeAfter, SentBy;
    ThreeValid();
    EventMoves(c, Event(0, SendBeatStep));
  }
}
