/**
  One node of the replication group: its in-memory state, its durable record, and the handlers that change them.

  Every handler appears twice.  The functions on `NodeState` are the specification that the cluster model in
  `Cluster` reasons about; the class `ReplicationRuntime` is the step-by-step form, proved equal to it.

  Wall-clock tests are inputs (`withinLease`), and so is the fate of each write of the durable record (`Io`).
 */
module Replication {
  import opened Base
  import opened Quorum

  datatype Role = Standalone | Leader | Follower | Candidate

  datatype WriteAckMode = Local | Replica | All

  datatype Config = Config(nodeId: NodeId, role: Role, mode: WriteAckMode, initialMembers: Members, advertised: bool)

  datatype Progress = Progress(matchIndex: u64, nextSequence: u64, lastAckTerm: u64)

  /** What survives a crash. */
  datatype Persisted = Persisted(term: u64, votedFor: Option<NodeId>, members: Members)

  datatype NodeState = NodeState(
    role: Role,
    term: u64,
    votedFor: Option<NodeId>,
    leader: Option<NodeId>,
    applied: u64,
    appliedTerm: Option<u64>,
    commit: u64,
    leaderTarget: u64,
    followers: map<NodeId, Progress>,
    members: Members,
    disk: Option<Persisted>)

  /** The fate of one `persist_state`: it succeeds, fails before the rename, or fails after it. */
  datatype Io = Written | LostWrite | WroteThenFailed

  datatype VoteRequest = VoteRequest(term: u64, candidate: NodeId, lastIndex: u64, lastTerm: Option<u64>, prevote: bool)

  datatype VoteReply = VoteReply(term: u64, granted: bool)

  datatype Heartbeat = Heartbeat(term: u64, leader: NodeId, commit: u64, frontier: u64, members: Members)

  datatype HeartbeatReply = HeartbeatReply(term: u64, accepted: bool)

  /** A handler's new state and its reply; `None` is the error return after a failed write. */
  datatype Handled<T> = Handled(state: NodeState, reply: Option<T>)

  // ---------------------------------------------------------------- specification

  function Record(s: NodeState): Persisted {
    Persisted(s.term, s.votedFor, s.members)
  }

  function Persist(s: NodeState, io: Io): NodeState {
    if io.LostWrite? then s else s.(disk := Some(Record(s)))
  }

  function ReplyIf<T>(io: Io, reply: T): Option<T> {
    if io.Written? then Some(reply) else None
  }

  function StartMembers(config: Config, disk: Option<Persisted>): Members {
    var known := if disk.Some? then disk.value.members else config.initialMembers;
    if config.advertised && config.nodeId !in known then known[config.nodeId := true] else known
  }

  function Start(config: Config, disk: Option<Persisted>): NodeState {
    var members := StartMembers(config, disk);
    NodeState(
      if |Voters(members)| > 1 && config.role != Standalone then Follower else config.role,
      if disk.Some? then disk.value.term else 0,
      if disk.Some? then disk.value.votedFor else None,
      None, 0, None, 0, 0, map[], members, disk)
  }

  function MatchOf(self: NodeId, applied: u64, followers: map<NodeId, Progress>): NodeId -> u64 {
    (v: NodeId) => if v == self then applied else if v in followers then followers[v].matchIndex else 0
  }

  ghost function CommitCandidate(config: Config, s: NodeState): u64 {
    var matchOf := MatchOf(config.nodeId, s.applied, s.followers);
    match config.mode
    case Local => s.applied
    case Replica => if Voters(s.members) == {} then 0
                    else ReachedPoint(Voters(s.members), matchOf, QuorumOf(s.members), U64_MAX)
    case All => if Voters(s.members) == {} then 0
                else ReachedPoint(Voters(s.members), matchOf, |Voters(s.members)|, U64_MAX)
  }

  ghost function Recompute(config: Config, s: NodeState): NodeState {
    s.(commit := Max(s.commit, Min(CommitCandidate(config, s), s.applied)))
  }

  ghost function SetApplied(config: Config, s: NodeState, sequence: u64, term: Option<u64>): NodeState {
    var s' := s.(applied := sequence, appliedTerm := term);
    if s.role == Standalone then s'.(commit := sequence)
    else if s.role == Leader then Recompute(config, s')
    else s'
  }

  function ObserveCommit(s: NodeState, leaderCommit: u64): NodeState {
    if s.role == Leader || s.role == Standalone then s
    else s.(commit := Max(s.commit, Min(leaderCommit, s.applied)))
  }

  ghost function RegisterAck(config: Config, s: NodeState, follower: NodeId, sequence: u64, term: u64, leader: NodeId)
    : NodeState
  {
    if s.role != Leader || s.term != term || leader != config.nodeId then s
    else
      Recompute(config, s.(followers := s.followers[follower := Progress(sequence, SatAdd(sequence, 1), term)]))
  }

  function NextProgress(previous: Option<Progress>, accepted: bool, matchSequence: u64, term: u64): Progress {
    var currentNext := if previous.Some? then previous.value.nextSequence else 1;
    var currentMatch := if previous.Some? then previous.value.matchIndex else 0;
    if accepted then
      Progress(Max(currentMatch, matchSequence), SatAdd(Max(currentMatch, matchSequence), 1), term)
    else
      Progress(currentMatch,
               Min(Max(SatSub(currentNext, 1), 1), Max(SatAdd(matchSequence, 1), 1)),
               term)
  }

  function Lookup<V>(m: map<NodeId, V>, k: NodeId): Option<V> {
    if k in m then Some(m[k]) else None
  }

  ghost function RecordAppend(config: Config, s: NodeState, follower: NodeId, accepted: bool, matchSequence: u64,
                              term: u64, leader: NodeId): NodeState
  {
    if s.role != Leader || s.term != term || leader != config.nodeId then s
    else
      var progress := NextProgress(Lookup(s.followers, follower), accepted, matchSequence, term);
      Recompute(config, s.(followers := s.followers[follower := progress]))
  }

  function BeginElection(config: Config, s: NodeState, io: Io): NodeState {
    Persist(s.(role := Candidate, term := SatAdd(s.term, 1), votedFor := Some(config.nodeId),
               followers := map[], leaderTarget := 0, leader := None), io)
  }

  function FinalizeElection(config: Config, s: NodeState, term: u64, votes: nat, members: nat, io: Io)
    : Handled<bool>
  {
    if s.term != term || s.role != Candidate then Handled(s, Some(false))
    else if votes < QuorumSize(members) then Handled(s, Some(false))
    else
      Handled(Persist(s.(role := Leader, followers := map[], leaderTarget := 0,
                         leader := Some(config.nodeId)), io),
              ReplyIf(io, true))
  }

  function StepDown(role: Role): Role {
    if role == Standalone then Standalone else Follower
  }

  function ObserveTerm(s: NodeState, term: u64, io: Io): NodeState {
    if term <= s.term then s
    else Persist(s.(term := term, votedFor := None, role := StepDown(s.role), followers := map[],
                    leaderTarget := 0, leader := None), io)
  }

  predicate IsVotingMember(members: Members, node: NodeId) {
    node in members && members[node]
  }

  function TermOr0(term: Option<u64>): u64 {
    if term.Some? then term.value else 0
  }

  predicate UpToDate(s: NodeState, req: VoteRequest) {
    || TermOr0(req.lastTerm) > TermOr0(s.appliedTerm)
    || (TermOr0(req.lastTerm) == TermOr0(s.appliedTerm) && req.lastIndex >= s.applied)
  }

  predicate RecentLeader(s: NodeState, withinLease: bool) {
    s.leader.Some? && withinLease
  }

  predicate GrantsPrevote(config: Config, s: NodeState, req: VoteRequest, withinLease: bool) {
    var localTerm, requestTerm := TermOr0(s.appliedTerm), TermOr0(req.lastTerm);
    var sameLog := requestTerm == localTerm && req.lastIndex == s.applied;
    var ownCandidacy := s.role == Candidate && s.votedFor == Some(config.nodeId);
    var tieBreak :=
      && s.term == req.term && ownCandidacy
      && (|| requestTerm > localTerm
          || (requestTerm == localTerm && req.lastIndex > s.applied)
          || (sameLog && req.candidate > config.nodeId));
    && UpToDate(s, req)
    && !(s.role == Leader && s.leader != Some(req.candidate))
    && !(ownCandidacy && s.term >= req.term && !tieBreak)
    && !(req.term > 1 && sameLog && req.candidate < config.nodeId)
    && !(s.applied > s.commit && !UpToDate(s, req))
    && (!RecentLeader(s, withinLease) || s.leader == Some(req.candidate))
  }

  /** Adoption of the request's term, the first of the vote handler's two durable steps. */
  function AdoptTerm(s: NodeState, term: u64, io: Io): NodeState {
    if term <= s.term then s
    else Persist(s.(term := term, votedFor := None, role := StepDown(s.role), followers := map[], leader := None), io)
  }

  predicate GrantsVote(s: NodeState, req: VoteRequest, withinLease: bool) {
    && !(RecentLeader(s, withinLease) && s.leader != Some(req.candidate))
    && UpToDate(s, req)
    && (s.votedFor == None || s.votedFor == Some(req.candidate))
  }

  /** The vote itself, once the request's term is the node's own. */
  function AnswerVote(s: NodeState, req: VoteRequest, withinLease: bool, io: Io): Handled<VoteReply> {
    if GrantsVote(s, req, withinLease) then
      Handled(Persist(s.(votedFor := Some(req.candidate), role := StepDown(s.role)), io),
              ReplyIf(io, VoteReply(s.term, true)))
    else Handled(s, Some(VoteReply(s.term, false)))
  }

  function HandleVote(config: Config, s: NodeState, req: VoteRequest, withinLease: bool, adoptIo: Io, grantIo: Io)
    : Handled<VoteReply>
  {
    if !IsVotingMember(s.members, req.candidate) || req.term < s.term then
      Handled(s, Some(VoteReply(s.term, false)))
    else if req.prevote then
      Handled(s, Some(VoteReply(s.term, GrantsPrevote(config, s, req, withinLease))))
    else
      var a := AdoptTerm(s, req.term, adoptIo);
      if req.term > s.term && !adoptIo.Written? then Handled(a, None)
      else AnswerVote(a, req, withinLease, grantIo)
  }

  /** The common body of `handle_heartbeat` and `observe_leader_status` once the message is accepted. */
  function FollowLeader(s: NodeState, hb: Heartbeat, members: Members, io: Io): NodeState {
    Persist(s.(term := hb.term,
               followers := if hb.term > s.term then map[] else s.followers,
               role := StepDown(s.role),
               votedFor := Some(hb.leader),
               leader := Some(hb.leader),
               commit := Max(s.commit, Min(hb.commit, s.applied)),
               leaderTarget := Max(s.leaderTarget, Max(hb.frontier, hb.commit)),
               members := members), io)
  }

  function HandleHeartbeat(s: NodeState, hb: Heartbeat, io: Io): Handled<HeartbeatReply> {
    if !IsVotingMember(s.members, hb.leader) || hb.term < s.term then
      Handled(s, Some(HeartbeatReply(s.term, false)))
    else
      Handled(FollowLeader(s, hb, hb.members, io), ReplyIf(io, HeartbeatReply(hb.term, true)))
  }

  function ObserveStatus(s: NodeState, hb: Heartbeat, io: Io): NodeState {
    if hb.term < s.term then s
    else FollowLeader(s, hb, if hb.members == map[] then s.members else hb.members, io)
  }

  function HeartbeatPayload(config: Config, s: NodeState): Option<Heartbeat> {
    if s.role != Leader then None
    else Some(Heartbeat(s.term, config.nodeId, s.commit, Max(s.applied, s.commit), s.members))
  }

  // ---------------------------------------------------------------- the runtime object

  class ReplicationRuntime {
    const config: Config
    var role: Role
    var term: u64
    var votedFor: Option<NodeId>
    var leader: Option<NodeId>
    var applied: u64
    var appliedTerm: Option<u64>
    var commit: u64
    var leaderTarget: u64
    var followers: map<NodeId, Progress>
    var members: Members
    var disk: Option<Persisted>

    ghost function State(): NodeState
      reads this
    {
      NodeState(role, term, votedFor, leader, applied, appliedTerm, commit, leaderTarget, followers, members, disk)
    }

    /** This term, and the vote or leader in it, are current and on disk. */
    ghost predicate Recorded(term: u64, candidate: NodeId)
      reads this
    {
      this.term == term && votedFor == Some(candidate) && disk == Some(Record(State()))
    }

    /** The node follows the sender of a heartbeat, with its members, and has committed what both have. */
    ghost predicate Follows(hb: Heartbeat, members: Members)
      reads this
    {
      && role != Leader && role != Candidate && leader == Some(hb.leader) && this.members == members
      && (commit >= hb.commit || commit >= applied) && leaderTarget >= hb.frontier
    }

    constructor (config: Config, disk: Option<Persisted>)
      ensures State() == Start(config, disk) && this.config == config && this.disk == disk
      ensures disk.Some? ==> term == disk.value.term && votedFor == disk.value.votedFor
      ensures disk.None? ==> term == 0 && votedFor == None
      ensures var known := if disk.Some? then disk.value.members else config.initialMembers;
              && (forall n :: n in known ==> n in members && members[n] == known[n])
              && (forall n :: n in members && n !in known ==> n == config.nodeId && members[n] && config.advertised)
              && (config.advertised ==> config.nodeId in members)
      ensures role == (if |Voters(members)| > 1 && config.role != Standalone then Follower else config.role)
      ensures leader == None && applied == 0 && appliedTerm == None && commit == 0 && followers == map[]
    {
      var known := if disk.Some? then disk.value.members else config.initialMembers;
      if config.advertised && config.nodeId !in known {
        known := known[config.nodeId := true];
      }
      var hasPeers := |Voters(known)| > 1;
      this.config := config;
      role := if hasPeers && config.role != Standalone then Follower else config.role;
      term := if disk.Some? then disk.value.term else 0;
      votedFor := if disk.Some? then disk.value.votedFor else None;
      leader, applied, appliedTerm, commit, leaderTarget := None, 0, None, 0, 0;
      followers, members := map[], known;
      this.disk := disk;
    }

    method PersistState(io: Io) returns (ok: bool)
      modifies this`disk
      ensures State() == Persist(old(State()), io) && ok == io.Written?
      ensures disk == if io == LostWrite then old(disk) else Some(Persisted(term, votedFor, members))
    {
      if !io.LostWrite? {
        disk := Some(Persisted(term, votedFor, members));
      }
      ok := io.Written?;
    }

    method RecomputeCommitSequence()
      modifies this`commit
      ensures State() == Recompute(config, old(State()))
      ensures old(commit) <= commit && (commit == old(commit) || commit <= applied)
      ensures Raised(config, old(State()), commit)
    {
      hide Raised;
      RecomputeRaises(config, State());
      var matchOf := MatchOf(config.nodeId, applied, followers);
      var candidate := applied;
      if config.mode == Replica {
        candidate := NthHighestVoterMatch(members, matchOf);
        if Voters(members) != {} {
          PointFromMethod(members, matchOf, QuorumOf(members), candidate);
        }
      } else if config.mode == All {
        candidate := MinVoterMatch(members, matchOf);
        if Voters(members) != {} {
          PointFromMethod(members, matchOf, |Voters(members)|, candidate);
        }
      }
      commit := Max(commit, Min(candidate, applied));
    }

    method SetLocalLastAppliedState(sequence: u64, lastTerm: Option<u64>)
      modifies this
      ensures State() == SetApplied(config, old(State()), sequence, lastTerm)
      ensures applied == sequence && appliedTerm == lastTerm
      ensures term == old(term) && votedFor == old(votedFor) && disk == old(disk) && role == old(role)
      ensures role == Standalone ==> commit == sequence
      ensures role == Follower || role == Candidate ==> commit == old(commit)
      ensures role == Leader ==>
                Raised(config, old(State()).(applied := sequence, appliedTerm := lastTerm), commit)
      ensures role != Standalone ==> old(commit) <= commit && (commit == old(commit) || commit <= sequence)
    {
      applied := sequence;
      appliedTerm := lastTerm;
      if role == Standalone {
        commit := sequence;
      } else if role == Leader {
        RecomputeCommitSequence();
      }
    }

    method ObserveLeaderCommit(leaderCommit: u64)
      modifies this
      ensures State() == ObserveCommit(old(State()), leaderCommit)
      ensures old(commit) <= commit && (commit == old(commit) || (commit <= applied && commit <= leaderCommit))
      ensures role == Follower || role == Candidate ==> commit >= applied || commit >= leaderCommit
      ensures role == Leader || role == Standalone ==> commit == old(commit)
    {
      if role == Leader || role == Standalone {
        return;
      }
      var bounded := Min(leaderCommit, applied);
      commit := Max(commit, bounded);
    }

    method RegisterFollowerAck(follower: NodeId, sequence: u64, ackTerm: u64, leaderId: NodeId)
      modifies this
      ensures State() == RegisterAck(config, old(State()), follower, sequence, ackTerm, leaderId)
      ensures if old(role) == Leader && ackTerm == old(term) && leaderId == config.nodeId
              then Counted(old(followers), follower, followers, sequence) else State() == old(State())
      ensures old(commit) <= commit && (commit == old(commit) || commit <= applied)
      ensures term == old(term) && votedFor == old(votedFor) && disk == old(disk)
    {
      if role != Leader || term != ackTerm || leaderId != config.nodeId {
        return;
      }
      followers := followers[follower := Progress(sequence, SatAdd(sequence, 1), ackTerm)];
      RecomputeCommitSequence();
    }

    method RecordAppendResult(follower: NodeId, accepted: bool, matchSequence: u64, resultTerm: u64, leaderId: NodeId)
      modifies this
      ensures State() == RecordAppend(config, old(State()), follower, accepted, matchSequence, resultTerm, leaderId)
      ensures old(commit) <= commit && (commit == old(commit) || commit <= applied)
      ensures term == old(term) && votedFor == old(votedFor) && disk == old(disk)
      ensures var counts := old(role) == Leader && resultTerm == old(term) && leaderId == config.nodeId;
              var before := KnownMatch(old(followers), follower);
              && (!counts ==> State() == old(State()))
              && (counts && accepted ==>
                    var reached := if before < matchSequence then matchSequence else before;
                    Counted(old(followers), follower, followers, reached))
              && (counts && !accepted ==> BackedOff(old(followers), follower, followers, matchSequence))
    {
      if role != Leader || term != resultTerm || leaderId != config.nodeId {
        return;
      }
      var currentNext := if follower in followers then followers[follower].nextSequence else 1;
      var progress := if follower in followers then followers[follower] else Progress(0, 1, resultTerm);
      progress := progress.(lastAckTerm := resultTerm);
      if accepted {
        progress := progress.(matchIndex := Max(progress.matchIndex, matchSequence));
        progress := progress.(nextSequence := SatAdd(progress.matchIndex, 1));
      } else {
        var fallback := SatAdd(matchSequence, 1);
        progress := progress.(nextSequence := Min(Max(SatSub(currentNext, 1), 1), Max(fallback, 1)));
      }
      if accepted {
        AcceptanceCounts(followers, follower, matchSequence, resultTerm);
      } else {
        RefusalBacksOff(followers, follower, matchSequence, resultTerm);
      }
      followers := followers[follower := progress];
      RecomputeCommitSequence();
    }

    method StartElection(io: Io) returns (request: Option<VoteRequest>)
      modifies this
      ensures State() == BeginElection(config, old(State()), io)
      ensures request ==
              if io.Written? then Some(VoteRequest(term, config.nodeId, applied, appliedTerm, false)) else None
      ensures request.Some? ==> Recorded(request.value.term, config.nodeId)
      ensures role == Candidate && leader == None && followers == map[] && commit == old(commit)
      ensures term == (if old(term) < U64_MAX then old(term) + 1 else U64_MAX) && votedFor == Some(config.nodeId)
    {
      role := Candidate;
      term := SatAdd(term, 1);
      votedFor := Some(config.nodeId);
      followers := map[];
      leaderTarget := 0;
      leader := None;
      var ok := PersistState(io);
      request := if ok then Some(VoteRequest(term, config.nodeId, applied, appliedTerm, false)) else None;
    }

    method CloseElection(electionTerm: u64, votes: nat, memberCount: nat, io: Io) returns (won: Option<bool>)
      modifies this
      ensures Handled(State(), won) == FinalizeElection(config, old(State()), electionTerm, votes, memberCount, io)
      ensures won == Some(true) <==>
              io.Written? && old(role) == Candidate && old(term) == electionTerm && 2 * votes > memberCount
      ensures won == Some(true) ==> role == Leader && leader == Some(config.nodeId) && followers == map[]
      ensures won == Some(false) ==> State() == old(State())
      ensures term == old(term) && votedFor == old(votedFor) && commit == old(commit)
    {
      if term != electionTerm || role != Candidate {
        return Some(false);
      }
      if votes < QuorumSize(memberCount) {
        return Some(false);
      }
      role := Leader;
      followers := map[];
      leaderTarget := 0;
      leader := Some(config.nodeId);
      var ok := PersistState(io);
      won := if ok then Some(true) else None;
    }

    method ObserveRemoteTerm(remoteTerm: u64, io: Io) returns (ok: bool)
      modifies this
      ensures State() == ObserveTerm(old(State()), remoteTerm, io)
      ensures ok == (remoteTerm <= old(term) || io.Written?)
      ensures term == Max(old(term), remoteTerm) && commit == old(commit)
      ensures remoteTerm <= old(term) ==> State() == old(State())
      ensures remoteTerm > old(term) ==>
                && votedFor == None && leader == None && followers == map[]
                && role == (if old(role) == Standalone then Standalone else Follower)
    {
      ok := true;
      if remoteTerm > term {
        term := remoteTerm;
        votedFor := None;
        if role != Standalone {
          role := Follower;
        }
        followers := map[];
        leaderTarget := 0;
        leader := None;
        ok := PersistState(io);
      }
    }

    method DecidePrevote(req: VoteRequest, withinLease: bool) returns (granted: bool)
      ensures granted == GrantsPrevote(config, State(), req, withinLease)
      ensures granted <==>
              var own, theirs := EndOf(appliedTerm, applied), EndOf(req.lastTerm, req.lastIndex);
              && NoFurther(own, theirs)
              && (role == Leader || (withinLease && leader.Some?) ==> leader == Some(req.candidate))
              && (own == theirs && req.term > 1 ==> config.nodeId <= req.candidate)
              && (role == Candidate && votedFor == Some(config.nodeId) && term >= req.term ==>
                    term == req.term && (own != theirs || config.nodeId < req.candidate))
    {
      var localTerm, requestTerm := TermOr0(appliedTerm), TermOr0(req.lastTerm);
      var upToDate := requestTerm > localTerm || (requestTerm == localTerm && req.lastIndex >= applied);
      var hasUncommitted := applied > commit;
      var recently := leader.Some? && withinLease;
      var tieBreak :=
        && term == req.term && role == Candidate && votedFor == Some(config.nodeId)
        && (|| requestTerm > localTerm
            || (requestTerm == localTerm && req.lastIndex > applied)
            || (requestTerm == localTerm && req.lastIndex == applied && req.candidate > config.nodeId));
      var leaderBlocks := role == Leader && leader != Some(req.candidate);
      var candidateBlocks :=
        role == Candidate && term >= req.term && votedFor == Some(config.nodeId) && !tieBreak;
      var lowerPriority :=
        && req.term > 1 && requestTerm == localTerm && req.lastIndex == applied && req.candidate < config.nodeId;
      var tailBlocks := hasUncommitted && !upToDate;
      granted := upToDate && !leaderBlocks && !candidateBlocks && !lowerPriority && !tailBlocks
                     && (!recently || leader == Some(req.candidate));
    }

    method AdoptRequestTerm(requestTerm: u64, io: Io) returns (ok: bool)
      requires requestTerm > term
      modifies this
      ensures State() == AdoptTerm(old(State()), requestTerm, io) && ok == io.Written?
    {
      term := requestTerm;
      votedFor := None;
      if role != Standalone {
        role := Follower;
      }
      followers := map[];
      leader := None;
      ok := PersistState(io);
    }

    method CastVote(req: VoteRequest, withinLease: bool, io: Io) returns (reply: Option<VoteReply>)
      modifies this
      ensures Handled(State(), reply) == AnswerVote(old(State()), req, withinLease, io)
    {
      var localTerm, requestTerm := TermOr0(appliedTerm), TermOr0(req.lastTerm);
      var upToDate := requestTerm > localTerm || (requestTerm == localTerm && req.lastIndex >= applied);
      if leader.Some? && withinLease && leader != Some(req.candidate) {
        return Some(VoteReply(term, false));
      }
      if !upToDate {
        return Some(VoteReply(term, false));
      }
      var granted := upToDate && (votedFor == None || votedFor == Some(req.candidate));
      if granted {
        votedFor := Some(req.candidate);
        if role != Standalone {
          role := Follower;
        }
        var ok := PersistState(io);
        if !ok {
          return None;
        }
      }
      return Some(VoteReply(term, granted));
    }

    method HandleVoteRequest(req: VoteRequest, withinLease: bool, adoptIo: Io, grantIo: Io)
      returns (reply: Option<VoteReply>)
      modifies this
      ensures Handled(State(), reply) == HandleVote(config, old(State()), req, withinLease, adoptIo, grantIo)
      ensures !req.prevote ==>
                (reply.Some? && reply.value.granted <==>
                 && MayVote(old(State()), req, withinLease)
                 && (req.term > old(term) ==> adoptIo.Written?) && grantIo.Written?)
      ensures reply.Some? && reply.value.granted && !req.prevote ==> Recorded(req.term, req.candidate)
      ensures reply.Some? ==> reply.value.term == term
      ensures req.prevote ==> State() == old(State()) && reply.Some?
      ensures old(term) <= term && commit == old(commit) && applied == old(applied)
    {
      if !(req.candidate in members && members[req.candidate]) {
        return Some(VoteReply(term, false));
      }
      if req.term < term {
        return Some(VoteReply(term, false));
      }
      if req.prevote {
        var granted := DecidePrevote(req, withinLease);
        return Some(VoteReply(term, granted));
      }
      if req.term > term {
        var ok := AdoptRequestTerm(req.term, adoptIo);
        if !ok {
          return None;
        }
      }
      reply := CastVote(req, withinLease, grantIo);
    }

    /** The field updates `handle_heartbeat` and `observe_leader_status` share. */
    method Follow(hb: Heartbeat, membership: Members, io: Io) returns (ok: bool)
      requires hb.term >= term
      modifies this
      ensures State() == FollowLeader(old(State()), hb, membership, io) && ok == io.Written?
    {
      hide Min, Max;
      if hb.term > term {
        term := hb.term;
        votedFor := None;
        followers := map[];
      }
      if role != Standalone {
        role := Follower;
      }
      votedFor := Some(hb.leader);
      leader := Some(hb.leader);
      var bounded := Min(hb.commit, applied);
      commit := Max(commit, bounded);
      leaderTarget := Max(leaderTarget, Max(hb.frontier, hb.commit));
      members := membership;
      ok := PersistState(io);
    }

    method ReceiveHeartbeat(hb: Heartbeat, io: Io) returns (reply: Option<HeartbeatReply>)
      modifies this
      ensures Handled(State(), reply) == HandleHeartbeat(old(State()), hb, io)
      ensures reply.Some? && reply.value.accepted <==>
              io.Written? && hb.leader in old(members) && old(members)[hb.leader] && old(term) <= hb.term
      ensures reply.Some? && reply.value.accepted ==> Recorded(hb.term, hb.leader) && Follows(hb, hb.members)
      ensures reply.Some? && !reply.value.accepted ==> State() == old(State())
      ensures reply.Some? ==> reply.value.term == term
      ensures old(term) <= term && old(commit) <= commit && (commit == old(commit) || commit <= applied)
    {
      hide FollowLeader;
      if !(hb.leader in members && members[hb.leader]) {
        return Some(HeartbeatReply(term, false));
      }
      if hb.term < term {
        return Some(HeartbeatReply(term, false));
      }
      FollowFacts(State(), hb, hb.members, io);
      var ok := Follow(hb, hb.members, io);
      reply := if ok then Some(HeartbeatReply(hb.term, true)) else None;
    }

    method ObserveLeaderStatus(hb: Heartbeat, io: Io) returns (ok: bool)
      modifies this
      ensures State() == ObserveStatus(old(State()), hb, io)
      ensures ok == (hb.term < old(term) || io.Written?)
      ensures ok && old(term) <= hb.term ==> Recorded(hb.term, hb.leader)
      ensures old(term) <= hb.term ==> Follows(hb, if hb.members == map[] then old(members) else hb.members)
      ensures hb.term < old(term) ==> State() == old(State())
      ensures old(term) <= term && old(commit) <= commit && (commit == old(commit) || commit <= applied)
    {
      hide FollowLeader;
      if hb.term < term {
        return true;
      }
      var membership := if hb.members != map[] then hb.members else members;
      FollowFacts(State(), hb, membership, io);
      ok := Follow(hb, membership, io);
    }
  }

  // ---------------------------------------------------------------- what the handlers mean

  /** The end of a log: the term and sequence of its last entry, zeros for an empty one. */
  datatype LogEnd = LogEnd(term: u64, sequence: u64)

  function EndOf(term: Option<u64>, sequence: u64): LogEnd {
    LogEnd(match term case Some(t) => t case None => 0, sequence)
  }

  /** Ends compare by term first, then by sequence. */
  predicate NoFurther(a: LogEnd, b: LogEnd) {
    a.term < b.term || (a.term == b.term && a.sequence <= b.sequence)
  }

  /**
    Who gets a vote: a voting member, in a term that is not stale, whose log does not end before the voter's; and, in
    the voter's own term, nobody else has its vote or is a leader it has just heard from.
   */
  predicate MayVote(s: NodeState, req: VoteRequest, withinLease: bool) {
    && req.candidate in s.members && s.members[req.candidate] && s.term <= req.term
    && NoFurther(EndOf(s.appliedTerm, s.applied), EndOf(req.lastTerm, req.lastIndex))
    && (s.term == req.term ==>
          && (s.votedFor.Some? ==> s.votedFor.value == req.candidate)
          && (withinLease && s.leader.Some? ==> s.leader.value == req.candidate))
  }

  lemma {:induction false} VoteExactly(config: Config, s: NodeState, req: VoteRequest, withinLease: bool, adoptIo: Io,
                                       grantIo: Io)
    ensures var h := HandleVote(config, s, req, withinLease, adoptIo, grantIo);
            && (!req.prevote ==>
                  (h.reply.Some? && h.reply.value.granted <==>
                   && MayVote(s, req, withinLease)
                   && (req.term > s.term ==> adoptIo.Written?) && grantIo.Written?))
            && (h.reply.Some? ==> h.reply.value.term == h.state.term)
  {
    hide GrantsPrevote;
  }

  lemma {:induction false} PrevoteExactly(config: Config, s: NodeState, req: VoteRequest, withinLease: bool)
    ensures GrantsPrevote(config, s, req, withinLease) <==>
            var own, theirs := EndOf(s.appliedTerm, s.applied), EndOf(req.lastTerm, req.lastIndex);
            && NoFurther(own, theirs)
            && (s.role == Leader || (withinLease && s.leader.Some?) ==> s.leader == Some(req.candidate))
            && (own == theirs && req.term > 1 ==> config.nodeId <= req.candidate)
            && (s.role == Candidate && s.votedFor == Some(config.nodeId) && s.term >= req.term ==>
                  s.term == req.term && (own != theirs || config.nodeId < req.candidate))
  {
  }

  /** The prevote request a node sends. */
  function PrevoteOf(config: Config, s: NodeState): VoteRequest {
    VoteRequest(SatAdd(s.term, 1), config.nodeId, s.applied, s.appliedTerm, true)
  }

  /** Past their first term, two nodes never both encourage the other to stand. */
  lemma {:induction false} PrevoteOneWay(a: Config, s: NodeState, b: Config, t: NodeState, lease: bool, lease': bool)
    requires a.nodeId != b.nodeId && s.term > 0 && t.term > 0
    ensures !(GrantsPrevote(a, s, PrevoteOf(b, t), lease) && GrantsPrevote(b, t, PrevoteOf(a, s), lease'))
  {
    hide GrantsPrevote;
    PrevoteExactly(a, s, PrevoteOf(b, t), lease);
    PrevoteExactly(b, t, PrevoteOf(a, s), lease');
  }

  // ---------------------------------------------------------------- commit

  /** The node is the leader itself and has applied `c`, or a follower known to have reached it. */
  predicate HasReached(self: NodeId, applied: u64, followers: map<NodeId, Progress>, v: NodeId, c: u64) {
    if v == self then applied >= c else c == 0 || (v in followers && followers[v].matchIndex >= c)
  }

  /** Enough voters for the acknowledgement mode have reached `c`: none need to, more than half, or all. */
  ghost predicate EnoughReached(config: Config, applied: u64, followers: map<NodeId, Progress>, members: Members,
                                c: u64)
  {
    var voters := set v | v in members && members[v];
    match config.mode
    case Local => true
    case Replica => 2 * |set v | v in voters && HasReached(config.nodeId, applied, followers, v, c)| > |voters|
    case All => voters != {} && forall v :: v in voters ==> HasReached(config.nodeId, applied, followers, v, c)
  }

  /** The commit point is the old one, or the greatest sequence applied here that enough have reached. */
  ghost predicate Raised(config: Config, s: NodeState, commit: u64) {
    forall c: u64 :: c > s.commit ==>
      (commit >= c <==> c <= s.applied && EnoughReached(config, s.applied, s.followers, s.members, c))
  }

  lemma {:induction false} RecomputeRaises(config: Config, s: NodeState)
    ensures Raised(config, s, Recompute(config, s).commit)
  {
    hide Recompute, EnoughReached;
    forall c: u64 | c > s.commit
      ensures Recompute(config, s).commit >= c <==>
              c <= s.applied && EnoughReached(config, s.applied, s.followers, s.members, c)
    {
      CommitExactly(config, s, c);
    }
  }

  /** The recomputed commit point is the old one, or the greatest sequence applied here that enough have reached. */
  lemma {:induction false} CommitExactly(config: Config, s: NodeState, c: u64)
    requires c > s.commit
    ensures Recompute(config, s).commit >= c <==>
            c <= s.applied && EnoughReached(config, s.applied, s.followers, s.members, c)
  {
    hide ReachedPoint, MatchOf;
    var voters, matchOf := Voters(s.members), MatchOf(config.nodeId, s.applied, s.followers);
    assert voters == set v | v in s.members && s.members[v];
    ReachingIs(config.nodeId, s, c);
    if voters != {} && config.mode == Replica {
      PointReaches(voters, matchOf, QuorumOf(s.members), c);
    } else if voters != {} && config.mode == All {
      PointReaches(voters, matchOf, |voters|, c);
      AllReach(config.nodeId, s, voters, c);
    }
  }

  lemma {:induction false} ReachingIs(self: NodeId, s: NodeState, c: u64)
    ensures Reaching(Voters(s.members), MatchOf(self, s.applied, s.followers), c) ==
            set v | v in Voters(s.members) && HasReached(self, s.applied, s.followers, v, c)
  {
  }

  lemma {:induction false} AllReach(self: NodeId, s: NodeState, voters: set<NodeId>, c: u64)
    ensures |set v | v in voters && HasReached(self, s.applied, s.followers, v, c)| >= |voters| <==>
            forall v :: v in voters ==> HasReached(self, s.applied, s.followers, v, c)
  {
    var reached := set v | v in voters && HasReached(self, s.applied, s.followers, v, c);
    SubsetSize(reached, voters);
    if |reached| >= |voters| {
      assert voters == reached + (voters - reached);
      assert voters - reached == {};
    } else {
      assert reached != voters;
    }
  }

  lemma {:induction false} PointReaches(voters: set<NodeId>, matchOf: NodeId -> u64, need: nat, c: u64)
    requires 0 < need <= |voters|
    ensures ReachedPoint(voters, matchOf, need, U64_MAX) >= c <==> |Reaching(voters, matchOf, c)| >= need
  {
    var point := ReachedPoint(voters, matchOf, need, U64_MAX);
    forall d: nat | d > U64_MAX ensures |Reaching(voters, matchOf, d)| < need {
      assert Reaching(voters, matchOf, d) == {};
    }
    ReachedPointIsGreatest(voters, matchOf, need, U64_MAX);
    if c <= point {
      ReachingShrinks(voters, matchOf, c, point);
    }
  }

  // ---------------------------------------------------------------- progress

  function KnownMatch(followers: map<NodeId, Progress>, f: NodeId): u64 {
    if f in followers then followers[f].matchIndex else 0
  }

  function KnownNext(followers: map<NodeId, Progress>, f: NodeId): u64 {
    if f in followers then followers[f].nextSequence else 1
  }

  ghost predicate OthersKept(before: map<NodeId, Progress>, f: NodeId, after: map<NodeId, Progress>) {
    f in after && after.Keys == before.Keys + {f} && forall g :: g in before && g != f ==> after[g] == before[g]
  }

  /** The follower is now known to have reached a sequence, and the next entry sent to it is the one after that. */
  ghost predicate Counted(before: map<NodeId, Progress>, f: NodeId, after: map<NodeId, Progress>, reached: u64) {
    && OthersKept(before, f, after) && after[f].matchIndex == reached
    && after[f].nextSequence == if reached < U64_MAX then reached + 1 else U64_MAX
  }

  /**
    After a refusal the leader knows no more than before.  It resumes one entry earlier, or right after the sequence
    the follower named if that is earlier still; at the start it stays there.
   */
  ghost predicate BackedOff(before: map<NodeId, Progress>, f: NodeId, after: map<NodeId, Progress>, named: u64) {
    var next, next' := KnownNext(before, f), KnownNext(after, f);
    && OthersKept(before, f, after) && after[f].matchIndex == KnownMatch(before, f)
    && (next <= 1 ==> next' == 1)
    && (next > 1 ==> 1 <= next' < next && next' <= named + 1 && (next' == next - 1 || next' == named + 1))
  }

  lemma {:induction false} RefusalBacksOff(followers: map<NodeId, Progress>, f: NodeId, named: u64, term: u64)
    ensures var p := NextProgress(Lookup(followers, f), false, named, term);
            BackedOff(followers, f, followers[f := p], named)
  {
  }

  lemma {:induction false} AcceptanceCounts(followers: map<NodeId, Progress>, f: NodeId, named: u64, term: u64)
    ensures var p := NextProgress(Lookup(followers, f), true, named, term);
            var before := KnownMatch(followers, f);
            var reached := if before < named then named else before;
            Counted(followers, f, followers[f := p], reached)
  {
  }

  lemma {:induction false} FollowFacts(s: NodeState, hb: Heartbeat, members: Members, io: Io)
    ensures var s' := FollowLeader(s, hb, members, io);
            && s'.term == hb.term && s'.votedFor == Some(hb.leader) && s'.applied == s.applied
            && (io.Written? ==> s'.disk == Some(Record(s')))
            && s'.role != Leader && s'.role != Candidate && s'.leader == Some(hb.leader) && s'.members == members
            && (s'.commit >= hb.commit || s'.commit >= s'.applied) && s'.leaderTarget >= hb.frontier
            && s.commit <= s'.commit && (s'.commit == s.commit || s'.commit <= s'.applied)
  {
  }

  /** The value a quorum lookup returns is the one the specification searches for. */
  lemma {:induction false} PointFromMethod(members: Members, matchOf: NodeId -> u64, need: nat, c: u64)
    requires 0 < need <= |Voters(members)|
    requires IsReachedPoint(Voters(members), matchOf, need, c)
    ensures ReachedPoint(Voters(members), matchOf, need, U64_MAX) == c
  {
    forall d: nat | d > U64_MAX ensures |Reaching(Voters(members), matchOf, d)| < need {
      assert Reaching(Voters(members), matchOf, d) == {};
    }
    ReachedPointIsGreatest(Voters(members), matchOf, need, U64_MAX);
    ReachedPointUnique(Voters(members), matchOf, need, c, ReachedPoint(Voters(members), matchOf, need, U64_MAX));
  }
}
