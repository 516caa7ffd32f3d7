/**
  The engine's owner thread: requests wait in a channel and, once taken out but not yet run, in a pending deque; each
  turn runs one request, or groups it with the writes behind it.  Requests that arrive while a turn sleeps are an input.
 */
module Worker {
  import opened Base
  import opened Commands

  const MAX_WRITE_BATCH: nat := 64

  datatype Request = Execute(id: nat, term: u64, command: Command) | Other(id: nat)

  /** The request a turn took, or group it formed, and what is left. */
  datatype Queues = Queues(group: seq<Request>, pending: seq<Request>, channel: seq<Request>)

  predicate Batchable(c: Command) {
    || c.SetKey? || c.SetNx? || c.GetDel? || (c.GetEx? && (c.expiration.Some? || c.persist))
    || c.MSet? || c.DeleteKeys? || c.ExpireKey? || c.PersistKey? || c.Rename? || c.RenameNx? || c.ClearAll?
  }

  predicate Joins(term: u64, r: Request) {
    r.Execute? && r.term == term && Batchable(r.command)
  }

  /** How many requests at the head of a queue join a group with this much room. */
  function Joining(term: u64, queue: seq<Request>, room: nat): (n: nat)
    ensures n <= |queue| && n <= room
    ensures forall i :: 0 <= i < n ==> Joins(term, queue[i])
    ensures n < |queue| && n < room ==> !Joins(term, queue[n])
  {
    if room == 0 || queue == [] || !Joins(term, queue[0]) then 0 else 1 + Joining(term, queue[1..], room - 1)
  }

  /** One drain: the joining requests go to the group; the first that does not is parked. */
  function DrainOf(term: u64, q: Queues): (r: Queues)
    requires |q.group| <= MAX_WRITE_BATCH
    ensures |r.group| <= MAX_WRITE_BATCH
  {
    var n := Joining(term, q.channel, MAX_WRITE_BATCH - |q.group|);
    var group := q.group + q.channel[..n];
    if |group| < MAX_WRITE_BATCH && n < |q.channel| then
      Queues(group, q.pending + [q.channel[n]], q.channel[n + 1..])
    else Queues(group, q.pending, q.channel[n..])
  }

  /** The queues once the request at the front has been taken out. */
  function Taken(pending: seq<Request>, channel: seq<Request>): Queues
    requires pending + channel != []
  {
    if pending != [] then Queues([pending[0]], pending[1..], channel) else Queues([channel[0]], [], channel[1..])
  }

  function Late(q: Queues, late: seq<Request>): Queues {
    q.(channel := q.channel + late)
  }

  /** A whole turn.  `late` is what arrives before its second drain, if it has one, and otherwise before its end. */
  function TurnOf(pending: seq<Request>, channel: seq<Request>, late: seq<Request>, syncData: bool): Queues
    requires pending + channel != []
  {
    var taken := Taken(pending, channel);
    var first := taken.group[0];
    if !first.Execute? || !Batchable(first.command) then Late(taken, late)
    else
      var drained := DrainOf(first.term, taken);
      if syncData && |drained.group| < MAX_WRITE_BATCH then DrainOf(first.term, Late(drained, late))
      else Late(drained, late)
  }

  function Waiting(q: Queues): seq<Request> {
    q.group + q.pending + q.channel
  }

  // ---------------------------------------------------------------- nothing lost, nothing twice

  /** What one drain moves: `joined` to the group, at most one request to the pending end. */
  function Parked(term: u64, q: Queues): (r: seq<Request>)
    requires |q.group| <= MAX_WRITE_BATCH
    ensures |r| <= 1
  {
    var n := Joining(term, q.channel, MAX_WRITE_BATCH - |q.group|);
    if |q.group| + n < MAX_WRITE_BATCH && n < |q.channel| then [q.channel[n]] else []
  }

  function Joined(term: u64, q: Queues): seq<Request>
    requires |q.group| <= MAX_WRITE_BATCH
  {
    q.channel[..Joining(term, q.channel, MAX_WRITE_BATCH - |q.group|)]
  }

  /** A drain only splits the channel. */
  lemma {:induction false} DrainSplits(term: u64, q: Queues)
    requires |q.group| <= MAX_WRITE_BATCH
    ensures var r := DrainOf(term, q);
            && r.group == q.group + Joined(term, q) && r.pending == q.pending + Parked(term, q)
            && q.channel == Joined(term, q) + Parked(term, q) + r.channel
  {
    hide Joins, Joining;
    var n := Joining(term, q.channel, MAX_WRITE_BATCH - |q.group|);
    SplitAt(q.channel, n);
    assert q.pending + [] == q.pending && q.channel[..n] + [] == q.channel[..n];
  }

  lemma {:induction false} SplitAt(s: seq<Request>, n: nat)
    requires n <= |s|
    ensures s == s[..n] + s[n..]
    ensures n < |s| ==> s == s[..n] + [s[n]] + s[n + 1..]
  {
  }

  lemma {:induction false} DrainFull(term: u64, q: Queues)
    requires |q.group| == MAX_WRITE_BATCH
    ensures DrainOf(term, q) == q
  {
    assert q.group + q.channel[..0] == q.group && q.channel[0..] == q.channel;
  }

  /** A drain, one request at a time. */
  lemma {:induction false} DrainStep(term: u64, q: Queues)
    requires |q.group| < MAX_WRITE_BATCH
    ensures DrainOf(term, q) ==
            if q.channel == [] then q
            else if !Joins(term, q.channel[0]) then Queues(q.group, q.pending + [q.channel[0]], q.channel[1..])
            else DrainOf(term, Queues(q.group + [q.channel[0]], q.pending, q.channel[1..]))
  {
    hide Joins;
    var room := MAX_WRITE_BATCH - |q.group|;
    if q.channel == [] || !Joins(term, q.channel[0]) {
      assert Joining(term, q.channel, room) == 0;
      assert q.group + q.channel[..0] == q.group && q.channel[0..] == q.channel;
    } else {
      DrainJoins(term, q);
    }
  }

  lemma {:induction false} DrainJoins(term: u64, q: Queues)
    requires |q.group| < MAX_WRITE_BATCH && q.channel != [] && Joins(term, q.channel[0])
    ensures DrainOf(term, q) == DrainOf(term, Queues(q.group + [q.channel[0]], q.pending, q.channel[1..]))
  {
    hide Joins, Joining;
    var room, rest := MAX_WRITE_BATCH - |q.group|, q.channel[1..];
    var m := Joining(term, rest, room - 1);
    JoiningNext(term, q.channel, room);
    TakeNext(q.group, q.channel, m);
  }

  lemma {:induction false} JoiningNext(term: u64, queue: seq<Request>, room: nat)
    requires queue != [] && room > 0 && Joins(term, queue[0])
    ensures Joining(term, queue, room) == 1 + Joining(term, queue[1..], room - 1)
  {
    hide Joins;
  }

  lemma {:induction false} TakeNext(group: seq<Request>, queue: seq<Request>, m: nat)
    requires queue != [] && m <= |queue| - 1
    ensures group + queue[..1 + m] == group + [queue[0]] + queue[1..][..m] && queue[1 + m..] == queue[1..][m..]
    ensures m < |queue| - 1 ==> queue[1 + m] == queue[1..][m] && queue[1 + m + 1..] == queue[1..][m + 1..]
  {
    assert queue[..1 + m] == [queue[0]] + queue[1..][..m];
  }

  lemma {:induction false} DrainConserves(term: u64, q: Queues)
    requires |q.group| <= MAX_WRITE_BATCH
    ensures multiset(Waiting(DrainOf(term, q))) == multiset(Waiting(q))
  {
    hide DrainOf, Joined, Parked;
    DrainSplits(term, q);
  }

  lemma {:induction false} TakenConserves(pending: seq<Request>, channel: seq<Request>)
    requires pending + channel != []
    ensures Waiting(Taken(pending, channel)) == pending + channel
  {
    if pending != [] {
      assert pending == [pending[0]] + pending[1..];
    } else {
      assert channel == [channel[0]] + channel[1..];
    }
  }

  lemma {:induction false} LateConserves(q: Queues, late: seq<Request>)
    ensures Waiting(Late(q, late)) == Waiting(q) + late
  {
  }

  /** Whatever the sync policy: every request waiting is run in this turn or still waiting after it, once. */
  lemma {:induction false} TurnConserves(pending: seq<Request>, channel: seq<Request>, late: seq<Request>,
                                         syncData: bool)
    requires pending + channel != []
    ensures multiset(Waiting(TurnOf(pending, channel, late, syncData))) == multiset(pending + channel + late)
  {
    hide DrainOf, Taken, Waiting, Late;
    var taken := Taken(pending, channel);
    TakenConserves(pending, channel);
    TakenOne(pending, channel);
    LateConserves(taken, late);
    var first := taken.group[0];
    if first.Execute? && Batchable(first.command) {
      var drained := DrainOf(first.term, taken);
      DrainConserves(first.term, taken);
      LateConserves(drained, late);
      if syncData && |drained.group| < MAX_WRITE_BATCH {
        LateGroup(drained, late);
        DrainConserves(first.term, Late(drained, late));
      }
    }
  }

  lemma {:induction false} TakenOne(pending: seq<Request>, channel: seq<Request>)
    requires pending + channel != []
    ensures |Taken(pending, channel).group| == 1
  {
  }

  lemma {:induction false} LateGroup(q: Queues, late: seq<Request>)
    ensures Late(q, late).group == q.group && Late(q, late).pending == q.pending
  {
  }

  // ---------------------------------------------------------------- order

  ghost predicate Apart(requests: seq<Request>) {
    forall i, j :: 0 <= i < j < |requests| ==> requests[i] != requests[j]
  }

  predicate HeadJoins(term: u64, queue: seq<Request>) {
    queue != [] && Joins(term, queue[0])
  }

  /** What the second drain looks at, when the first took `n` from the channel. */
  function Behind(channel: seq<Request>, n: nat, late: seq<Request>): seq<Request>
    requires n <= |channel|
  {
    if n < |channel| then channel[n + 1..] + late else late
  }

  /**
    Does some request of this turn's group overtake one that arrived before it?  It does when the channel's head joins
    past a request already waiting in the deque; or when, in the second drain, the head joins past one of those or
    past the request the first drain parked.
   */
  predicate Overtakes(pending: seq<Request>, channel: seq<Request>, late: seq<Request>, syncData: bool)
    requires pending + channel != []
  {
    var taken := Taken(pending, channel);
    var first := taken.group[0];
    first.Execute? && Batchable(first.command)
    && var n := Joining(first.term, taken.channel, MAX_WRITE_BATCH - 1);
       || (taken.pending != [] && HeadJoins(first.term, taken.channel))
       || (&& syncData && n + 1 < MAX_WRITE_BATCH && (taken.pending != [] || n < |taken.channel|)
           && HeadJoins(first.term, Behind(taken.channel, n, late)))
  }

  /** Two ways to lay out the same pieces agree exactly when nothing is moved past something. */
  lemma {:induction false} SameOrder(f: Request, rest: seq<Request>, a: seq<Request>, p: seq<Request>,
                                     b: seq<Request>, tail: seq<Request>)
    requires Apart([f] + rest + a + p + b + tail)
    ensures [f] + a + b + rest + p + tail == [f] + rest + a + p + b + tail <==>
            (rest == [] || a + b == []) && (p == [] || b == [])
    ensures [f] + a + b <= [f] + rest + a + p + b + tail <==> (rest == [] || a + b == []) && (p == [] || b == [])
  {
    var left, right := [f] + a + b + rest + p + tail, [f] + rest + a + p + b + tail;
    if rest != [] && a + b != [] {
      var i := FoundLater(f, rest, a, p, b, tail);
      assert left[1] == (a + b)[0] && right[1] == rest[0] && right[1] != right[i];
      assert ([f] + a + b)[1] == (a + b)[0];
    } else if p != [] && b != [] {
      assert left[1 + |a|] == b[0] && right[1 + |a|] == p[0] && right[1 + |a| + |p|] == b[0];
      assert ([f] + a + b)[1 + |a|] == b[0];
    } else {
      assert a + b == [] ==> a == [] && b == [];
      assert left == right && left[..1 + |a| + |b|] == [f] + a + b;
    }
  }

  /** The first request moved up stands further back in arrival order. */
  lemma {:induction false} FoundLater(f: Request, rest: seq<Request>, a: seq<Request>, p: seq<Request>,
                                      b: seq<Request>, tail: seq<Request>)
    returns (i: nat)
    requires rest != [] && a + b != []
    ensures var right := [f] + rest + a + p + b + tail; 1 < i < |right| && right[i] == (a + b)[0]
  {
    i := 1 + |rest| + if a != [] then 0 else |p|;
  }

  /** A batchable turn laid out in pieces: what joins and parks in the first drain, and what joins in the second. */
  lemma {:induction false} BatchPieces(taken: Queues, term: u64, late: seq<Request>, syncData: bool)
    returns (a: seq<Request>, p: seq<Request>, b: seq<Request>, tail: seq<Request>)
    requires |taken.group| == 1
    ensures a == Joined(term, taken) && p == Parked(term, taken)
    ensures var drained := DrainOf(term, taken);
            var twice := syncData && |drained.group| < MAX_WRITE_BATCH;
            var end := if twice then DrainOf(term, Late(drained, late)) else Late(drained, late);
            && b == (if twice then Joined(term, Late(drained, late)) else [])
            && end.group == taken.group + a + b && end.pending + end.channel == taken.pending + p + tail
            && taken.channel + late == a + p + b + tail
  {
    hide DrainOf, Joined, Parked;
    var drained := DrainOf(term, taken);
    DrainSplits(term, taken);
    a, p, b, tail := Joined(term, taken), Parked(term, taken), [], drained.channel + late;
    if syncData && |drained.group| < MAX_WRITE_BATCH {
      var again := Late(drained, late);
      DrainSplits(term, again);
      b := Joined(term, again);
      tail := Parked(term, again) + DrainOf(term, again).channel;
      assert drained.channel + late == b + tail;
    }
    assert taken.channel + late == a + p + (b + tail) == a + p + b + tail;
  }

  /** Whether a piece is empty is seen at the head of a queue. */
  lemma {:induction false} PiecesByHeads(taken: Queues, term: u64, late: seq<Request>)
    requires |taken.group| == 1
    ensures var n, drained := Joining(term, taken.channel, MAX_WRITE_BATCH - 1), DrainOf(term, taken);
            && (Joined(term, taken) != [] <==> HeadJoins(term, taken.channel))
            && (Parked(term, taken) != [] <==> n + 1 < MAX_WRITE_BATCH && n < |taken.channel|)
            && |drained.group| == n + 1
            && (n + 1 < MAX_WRITE_BATCH ==>
                  (Joined(term, Late(drained, late)) != [] <==> HeadJoins(term, Behind(taken.channel, n, late))))
  {
    hide Joins;
    var n, drained := Joining(term, taken.channel, MAX_WRITE_BATCH - 1), DrainOf(term, taken);
    if n + 1 < MAX_WRITE_BATCH {
      assert taken.channel[|taken.channel|..] == [] && [] + late == late;
      assert Late(drained, late).channel == Behind(taken.channel, n, late);
    }
  }

  lemma {:induction false} TakenThen(q: Queues, late: seq<Request>)
    ensures Waiting(q) + late == q.group + q.pending + (q.channel + late)
  {
  }

  /** Any turn laid out in pieces. */
  lemma {:induction false} TurnPieces(pending: seq<Request>, channel: seq<Request>, late: seq<Request>, syncData: bool)
    returns (f: Request, rest: seq<Request>, a: seq<Request>, p: seq<Request>, b: seq<Request>, tail: seq<Request>)
    requires pending + channel != []
    ensures Waiting(TurnOf(pending, channel, late, syncData)) == [f] + a + b + rest + p + tail
    ensures pending + channel + late == [f] + rest + a + p + b + tail
    ensures TurnOf(pending, channel, late, syncData).group == [f] + a + b
    ensures Overtakes(pending, channel, late, syncData) <==> (rest != [] && a + b != []) || (p != [] && b != [])
  {
    hide DrainOf, Joined, Parked, Joins, Batchable, Joining, HeadJoins, Behind, Taken;
    var taken := Taken(pending, channel);
    TakenOne(pending, channel);
    f, rest := taken.group[0], taken.pending;
    TakenConserves(pending, channel);
    TakenThen(taken, late);
    assert taken.group == [f];
    if f.Execute? && Batchable(f.command) {
      a, p, b, tail := BatchPieces(taken, f.term, late, syncData);
      PiecesByHeads(taken, f.term, late);
    } else {
      a, p, b, tail := [], [], [], taken.channel + late;
    }
    Regroup(f, rest, a, p, b, tail);
  }

  lemma {:induction false} Regroup(f: Request, rest: seq<Request>, a: seq<Request>, p: seq<Request>, b: seq<Request>,
                                   tail: seq<Request>)
    ensures [f] + rest + (a + p + b + tail) == [f] + rest + a + p + b + tail
    ensures [f] + a + b + (rest + p + tail) == [f] + a + b + rest + p + tail
  {
  }

  /** With distinct requests, a turn keeps arrival order exactly when nothing overtakes. */
  lemma {:induction false} OrderExactly(pending: seq<Request>, channel: seq<Request>, late: seq<Request>,
                                        syncData: bool)
    requires pending + channel != [] && Apart(pending + channel + late)
    ensures Waiting(TurnOf(pending, channel, late, syncData)) == pending + channel + late <==>
            !Overtakes(pending, channel, late, syncData)
  {
    hide TurnOf, Overtakes, Waiting;
    var f, rest, a, p, b, tail := TurnPieces(pending, channel, late, syncData);
    SameOrder(f, rest, a, p, b, tail);
  }

  /** A turn that overtakes runs its group out of arrival order, whatever happens later. */
  lemma {:induction false} OvertakingShows(pending: seq<Request>, channel: seq<Request>, late: seq<Request>,
                                           syncData: bool)
    requires pending + channel != [] && Apart(pending + channel + late)
    ensures TurnOf(pending, channel, late, syncData).group <= pending + channel + late <==>
            !Overtakes(pending, channel, late, syncData)
  {
    hide TurnOf, Overtakes, Waiting;
    var f, rest, a, p, b, tail := TurnPieces(pending, channel, late, syncData);
    SameOrder(f, rest, a, p, b, tail);
  }

  lemma {:induction false} TakenRest(pending: seq<Request>, channel: seq<Request>)
    requires pending + channel != [] && |pending| <= 1
    ensures |Taken(pending, channel).group| == 1 && Taken(pending, channel).pending == []
  {
  }

  /** A drain past an empty deque moves nothing past anything. */
  lemma {:induction false} DrainKeeps(term: u64, q: Queues)
    requires |q.group| <= MAX_WRITE_BATCH && q.pending == []
    ensures Waiting(DrainOf(term, q)) == Waiting(q) && |DrainOf(term, q).pending| <= 1
  {
    hide DrainOf, Joined, Parked;
    DrainSplits(term, q);
    ghost var j, p, c := Joined(term, q), Parked(term, q), DrainOf(term, q).channel;
    assert q.group + j + p + c == q.group + (j + p + c);
  }

  /** Without the second drain at most one request is ever parked, and nothing ever overtakes. */
  lemma {:induction false} BufferedKeepsOrder(pending: seq<Request>, channel: seq<Request>, late: seq<Request>)
    requires pending + channel != [] && |pending| <= 1
    ensures Waiting(TurnOf(pending, channel, late, false)) == pending + channel + late
    ensures |TurnOf(pending, channel, late, false).pending| <= 1
  {
    hide DrainOf, Joins, Batchable, Waiting, Taken;
    var taken := Taken(pending, channel);
    TakenConserves(pending, channel);
    TakenRest(pending, channel);
    LateConserves(taken, late);
    var f := taken.group[0];
    if f.Execute? && Batchable(f.command) {
      var drained := DrainOf(f.term, taken);
      DrainKeeps(f.term, taken);
      LateConserves(drained, late);
    }
  }

  /** A group is one term's batchable writes, at most sixty-four, or a single request. */
  lemma {:induction false} GroupUniform(pending: seq<Request>, channel: seq<Request>, late: seq<Request>,
                                        syncData: bool)
    requires pending + channel != []
    ensures var g := TurnOf(pending, channel, late, syncData).group;
            && 1 <= |g| <= 64 && g[0] == (pending + channel)[0]
            && (|g| > 1 ==>
                  g[0].Execute?
                  && forall i :: 0 <= i < |g| ==> g[i].Execute? && g[i].term == g[0].term && Batchable(g[i].command))
  {
    hide TurnOf, Batchable;
    GroupJoins(pending, channel, late, syncData);
    var g := TurnOf(pending, channel, late, syncData).group;
    assert |g| > 1 ==> forall i :: 0 <= i < |g| ==> Joins(g[0].term, g[i]);
  }

  lemma {:induction false} GroupJoins(pending: seq<Request>, channel: seq<Request>, late: seq<Request>,
                                      syncData: bool)
    requires pending + channel != []
    ensures var g := TurnOf(pending, channel, late, syncData).group;
            && 1 <= |g| <= MAX_WRITE_BATCH && g[0] == (pending + channel)[0]
            && (|g| > 1 ==> g[0].Execute? && forall i :: 0 <= i < |g| ==> Joins(g[0].term, g[i]))
  {
    hide Joining, Parked;
    var taken := Taken(pending, channel);
    var f := taken.group[0];
    if f.Execute? && Batchable(f.command) {
      DrainSplits(f.term, taken);
      var drained := DrainOf(f.term, taken);
      DrainSplits(f.term, Late(drained, late));
    }
  }

  /** A parked request moves one place forward every turn, so it runs after as many turns as there are before it. */
  lemma {:induction false} ParkedAdvances(pending: seq<Request>, channel: seq<Request>, late: seq<Request>,
                                          syncData: bool)
    requires pending != []
    ensures TurnOf(pending, channel, late, syncData).group[0] == pending[0]
    ensures pending[1..] <= TurnOf(pending, channel, late, syncData).pending
  {
    hide Joins, Joining;
  }

  /** A later write joins the group although an earlier INCR waits: the INCR is overtaken. */
  lemma {:induction false} SecondDrainOvertakes()
    ensures var set1, incr := Execute(1, 7, SetNx("k", [])), Execute(2, 7, Incr("c"));
            var set2 := Execute(3, 7, SetNx("c", [49]));
            TurnOf([], [set1, incr], [set2], true) == Queues([set1, set2], [incr], [])
  {
    hide DrainOf, Joining;
    var set1, incr := Execute(1, 7, SetNx("k", [])), Execute(2, 7, Incr("c"));
    var set2 := Execute(3, 7, SetNx("c", [49]));
    assert [set1, incr][1..] == [incr] && [incr][1..] == [] && [set2][1..] == [];
    assert [] + [incr] == [incr] && [] + [set2] == [set2] && [set1] + [set2] == [set1, set2];
    DrainStep(7, Queues([set1], [], [incr]));
    DrainStep(7, Queues([set1], [incr], [set2]));
    DrainStep(7, Queues([set1, set2], [incr], []));
  }

  // ---------------------------------------------------------------- the thread

  function Ids(requests: seq<Request>): seq<nat> {
    seq(|requests|, i requires 0 <= i < |requests| => requests[i].id)
  }

  class EngineWorker {
    const syncData: bool
    var pending: seq<Request>
    var channel: seq<Request>
    ghost var arrived: seq<Request>
    ghost var done: seq<Request>
    /** The requests answered, in order, by identifier. */
    ghost var answered: seq<nat>
    /** No turn so far has overtaken. */
    ghost var ordered: bool

    /**
      Every request that ever arrived has been run, or waits, exactly once.  They are run in the order they arrived as
      long as no turn overtakes; and once one has, distinct requests have been run out of order for good.
     */
    ghost predicate Valid()
      reads this
    {
      && multiset(arrived) == multiset(done + pending + channel)
      && (if ordered then arrived == done + pending + channel else Apart(arrived) ==> !(done <= arrived))
      && (!syncData ==> |pending| <= 1 && ordered)
    }

    constructor (syncData: bool)
      ensures Valid() && this.syncData == syncData && arrived == [] && done == [] && pending == [] && channel == []
      ensures answered == [] && ordered
    {
      this.syncData := syncData;
      pending, channel, arrived, done := [], [], [], [];
      answered, ordered := [], true;
    }

    method Arrive(r: Request)
      requires Valid()
      modifies this
      ensures Valid() && arrived == old(arrived) + [r] && channel == old(channel) + [r]
      ensures done == old(done) && pending == old(pending) && answered == old(answered) && ordered == old(ordered)
    {
      channel, arrived := channel + [r], arrived + [r];
      assert done + pending + (old(channel) + [r]) == (done + pending + old(channel)) + [r];
      RunLength(old(arrived), done, pending + old(channel));
      assert done + (pending + old(channel)) == done + pending + old(channel);
      LongerStill(old(arrived), [r], done);
    }

    /** `drain_write_batch`. */
    method Drain(term: u64, group: seq<Request>) returns (batch: seq<Request>)
      requires |group| <= MAX_WRITE_BATCH
      modifies this`pending, this`channel
      ensures Queues(batch, pending, channel) == DrainOf(term, Queues(group, old(pending), old(channel)))
    {
      hide Joins, Joining, DrainOf;
      batch := group;
      ghost var i := 0;
      assert channel[0..] == channel && group + channel[..0] == group;
      while |batch| < MAX_WRITE_BATCH
        invariant i <= |old(channel)| && |batch| == |group| + i <= MAX_WRITE_BATCH
        invariant batch == group + old(channel)[..i] && channel == old(channel)[i..] && pending == old(pending)
        invariant DrainOf(term, Queues(batch, pending, channel))
               == DrainOf(term, Queues(group, old(pending), old(channel)))
        decreases MAX_WRITE_BATCH - |batch|
      {
        DrainStep(term, Queues(batch, pending, channel));
        if channel == [] {
          return;
        }
        var next := channel[0];
        channel := channel[1..];
        if !Joins(term, next) {
          pending := pending + [next];
          return;
        }
        batch := batch + [next];
        i := i + 1;
      }
      DrainFull(term, Queues(batch, pending, channel));
    }

    /** One turn of the loop; `late` arrives while it sleeps. */
    method Turn(late: seq<Request>) returns (group: seq<Request>)
      requires Valid() && pending + channel != []
      modifies this
      ensures Queues(group, pending, channel) == TurnOf(old(pending), old(channel), late, syncData)
      ensures Valid() && done == old(done) + group && arrived == old(arrived) + late && answered == old(answered)
      ensures ordered == (old(ordered) && !Overtakes(old(pending), old(channel), late, syncData))
    {
      hide Overtakes, TurnOf, Apart;
      TurnConserves(pending, channel, late, syncData);
      if !syncData {
        BufferedKeepsOrder(pending, channel, late);
        BufferedNeverOvertakes(pending, channel, late);
      }
      group := Step(late);
      done, arrived := done + group, arrived + late;
      ordered := ordered && !Overtakes(old(pending), old(channel), late, syncData);
      Accounted(old(done), old(pending), old(channel), late, group, pending, channel);
      if Apart(arrived) {
        RunOrder(old(arrived), old(done), old(pending), old(channel), late, syncData, old(ordered));
      } else if ordered {
        KeepsOrder(old(pending), old(channel), late, syncData);
      }
    }

    /** A turn, and the answers to its group: whatever the engine says, each request that is run is answered once. */
    method Serve<T, R, S, E>(late: seq<Request>, run: seq<Request> -> Result<seq<(T, u64)>, E>,
                             render: (nat, T) -> Result<R, E>, stateAt: u64 -> Result<S, E>)
      returns (answers: seq<(nat, Result<(R, S), Failure<E>>)>)
      requires Valid() && pending + channel != [] && answered == Ids(done)
      requires forall group :: run(group).Ok? ==> |run(group).value| == |group|
      modifies this
      ensures Valid() && answered == Ids(done)
      ensures done == old(done) + TurnOf(old(pending), old(channel), late, syncData).group
      ensures arrived == old(arrived) + late
      ensures answered == old(answered) + seq(|answers|, i requires 0 <= i < |answers| => answers[i].0)
      ensures var group := TurnOf(old(pending), old(channel), late, syncData).group;
              OwnAnswers(group, run(group), render, stateAt, answers)
    {
      hide TurnOf, Overtakes, Apart, OwnAnswers;
      var group := Turn(late);
      answers := Answer(group, run(group), render, stateAt);
      answered := answered + Ids(group);
      AnsweredIds(group, run(group), render, stateAt, answers);
      IdsConcat(old(done), group);
    }

    method Step(late: seq<Request>) returns (group: seq<Request>)
      requires pending + channel != []
      modifies this`pending, this`channel
      ensures Queues(group, pending, channel) == TurnOf(old(pending), old(channel), late, syncData)
    {
      hide DrainOf, Batchable;
      var first;
      if pending != [] {
        first, pending := pending[0], pending[1..];
      } else {
        first, channel := channel[0], channel[1..];
      }
      group := [first];
      if first.Execute? && Batchable(first.command) {
        group := Drain(first.term, group);
        channel := channel + late;
        if syncData && |group| < MAX_WRITE_BATCH {
          group := Drain(first.term, group);
        }
      } else {
        channel := channel + late;
      }
    }
  }

  lemma {:induction false} Accounted(done: seq<Request>, pending: seq<Request>, channel: seq<Request>,
                                     late: seq<Request>, group: seq<Request>, pending': seq<Request>,
                                     channel': seq<Request>)
    requires multiset(group + pending' + channel') == multiset(pending + channel + late)
    ensures multiset(done + group + pending' + channel') == multiset(done + pending + channel + late)
    ensures group + pending' + channel' == pending + channel + late ==>
            done + group + pending' + channel' == done + pending + channel + late
  {
    assert done + group + pending' + channel' == done + (group + pending' + channel');
    assert done + pending + channel + late == done + (pending + channel + late);
  }

  lemma {:induction false} RunLength(arrived: seq<Request>, done: seq<Request>, waiting: seq<Request>)
    requires multiset(arrived) == multiset(done + waiting)
    ensures |done| <= |arrived|
  {
    assert |multiset(arrived)| == |arrived| && |multiset(done + waiting)| == |done + waiting|;
  }

  /** What is not the beginning of a list is not the beginning of a longer one. */
  lemma {:induction false} LongerStill(arrived: seq<Request>, late: seq<Request>, done: seq<Request>)
    requires |done| <= |arrived|
    ensures done <= arrived + late <==> done <= arrived
    ensures Apart(arrived + late) ==> Apart(arrived)
  {
    if Apart(arrived + late) {
      forall i, j | 0 <= i < j < |arrived| ensures arrived[i] != arrived[j] {
        assert (arrived + late)[i] == arrived[i] && (arrived + late)[j] == arrived[j];
      }
    }
  }

  lemma {:induction false} ApartRest(done: seq<Request>, rest: seq<Request>)
    requires Apart(done + rest)
    ensures Apart(rest)
  {
    forall i, j | 0 <= i < j < |rest| ensures rest[i] != rest[j] {
      assert (done + rest)[|done| + i] == rest[i] && (done + rest)[|done| + j] == rest[j];
    }
  }

  lemma {:induction false} PrefixAfter(done: seq<Request>, group: seq<Request>, waiting: seq<Request>)
    ensures done + group <= done + waiting <==> group <= waiting
  {
    if |group| <= |waiting| {
      assert (done + waiting)[..|done + group|] == done + waiting[..|group|];
      assert (done + group)[|done|..] == group && (done + waiting[..|group|])[|done|..] == waiting[..|group|];
    }
  }

  /** What a turn does to the order of a run of distinct requests. */
  lemma {:induction false} RunOrder(arrived: seq<Request>, done: seq<Request>, pending: seq<Request>,
                                    channel: seq<Request>, late: seq<Request>, syncData: bool, ordered: bool)
    requires pending + channel != [] && Apart(arrived + late)
    requires multiset(arrived) == multiset(done + pending + channel)
    requires if ordered then arrived == done + pending + channel else Apart(arrived) ==> !(done <= arrived)
    ensures var r := TurnOf(pending, channel, late, syncData);
            if ordered && !Overtakes(pending, channel, late, syncData)
            then arrived + late == done + r.group + r.pending + r.channel
            else !(done + r.group <= arrived + late)
  {
    hide TurnOf, Overtakes, Apart;
    var r, waiting := TurnOf(pending, channel, late, syncData), pending + channel + late;
    assert done + pending + channel == done + (pending + channel);
    RunLength(arrived, done, pending + channel);
    if ordered {
      assert arrived + late == done + waiting;
      ApartRest(done, waiting);
      OrderExactly(pending, channel, late, syncData);
      OvertakingShows(pending, channel, late, syncData);
      if !Overtakes(pending, channel, late, syncData) {
        assert done + r.group + r.pending + r.channel == done + (r.group + r.pending + r.channel);
      }
      PrefixAfter(done, r.group, waiting);
    } else {
      LongerStill(arrived, late, done);
      if done + r.group <= arrived + late {
        assert (done + r.group)[..|done|] == done;
      }
    }
  }

  /** A turn that does not overtake keeps arrival order, whether or not requests repeat. */
  lemma {:induction false} KeepsOrder(pending: seq<Request>, channel: seq<Request>, late: seq<Request>, syncData: bool)
    requires pending + channel != [] && !Overtakes(pending, channel, late, syncData)
    ensures Waiting(TurnOf(pending, channel, late, syncData)) == pending + channel + late
  {
    hide TurnOf, Overtakes, Waiting;
    var f, rest, a, p, b, tail := TurnPieces(pending, channel, late, syncData);
    assert a + b == [] ==> a == [] && b == [];
    assert [f] + a + b + rest + p + tail == [f] + rest + a + p + b + tail;
  }

  /** Without the second drain nothing overtakes. */
  lemma {:induction false} BufferedNeverOvertakes(pending: seq<Request>, channel: seq<Request>, late: seq<Request>)
    requires pending + channel != [] && |pending| <= 1
    ensures !Overtakes(pending, channel, late, false)
  {
  }

  datatype Failure<E> = Failed(error: E) | WorkerClosed

  /**
    One answer for each request, its own: the i-th request's identifier with the i-th result.  When the batch failed
    the first learns why and the others only that there is no answer; when it completed, a request fails alone if its
    reply cannot be rendered or its log position cannot be looked up, in that order.
   */
  ghost predicate OwnAnswers<T, R, S, E>(group: seq<Request>, outcome: Result<seq<(T, u64)>, E>,
                                         render: (nat, T) -> Result<R, E>, stateAt: u64 -> Result<S, E>,
                                         answers: seq<(nat, Result<(R, S), Failure<E>>)>)
    requires outcome.Ok? ==> |outcome.value| == |group|
  {
    && |answers| == |group|
    && forall i :: 0 <= i < |group| ==>
         && answers[i].0 == group[i].id
         && (outcome.Ok? ==>
               OwnAnswer(render(group[i].id, outcome.value[i].0), stateAt(outcome.value[i].1), answers[i].1))
         && (outcome.Err? && i == 0 ==> answers[i].1 == Err(Failed(outcome.error)))
         && (outcome.Err? && i > 0 ==> answers[i].1 == Err(WorkerClosed))
  }

  lemma {:induction false} AnsweredIds<T, R, S, E>(group: seq<Request>, outcome: Result<seq<(T, u64)>, E>,
                                                   render: (nat, T) -> Result<R, E>, stateAt: u64 -> Result<S, E>,
                                                   answers: seq<(nat, Result<(R, S), Failure<E>>)>)
    requires outcome.Ok? ==> |outcome.value| == |group|
    requires OwnAnswers(group, outcome, render, stateAt, answers)
    ensures Ids(group) == seq(|answers|, i requires 0 <= i < |answers| => answers[i].0)
  {
  }

  lemma {:induction false} IdsConcat(a: seq<Request>, b: seq<Request>)
    ensures Ids(a + b) == Ids(a) + Ids(b)
  {
  }

  predicate OwnAnswer<R(==), S(==), E(==)>(rendered: Result<R, E>, state: Result<S, E>,
                                           answer: Result<(R, S), Failure<E>>)
  {
    && (rendered.Ok? && state.Ok? ==> answer == Ok((rendered.value, state.value)))
    && (rendered.Err? ==> answer == Err(Failed(rendered.error)))
    && (rendered.Ok? && state.Err? ==> answer == Err(Failed(state.error)))
  }

  /** `process_write_batch` after the batch: positions in the log are looked up once each, which changes no answer. */
  method Answer<T, R, S, E>(group: seq<Request>, outcome: Result<seq<(T, u64)>, E>, render: (nat, T) -> Result<R, E>,
                            stateAt: u64 -> Result<S, E>)
    returns (answers: seq<(nat, Result<(R, S), Failure<E>>)>)
    requires outcome.Ok? ==> |outcome.value| == |group|
    ensures OwnAnswers(group, outcome, render, stateAt, answers)
  {
    if outcome.Err? {
      answers := Fail(group, outcome.error);
      return;
    }
    answers := [];
    var known: map<u64, S> := map[];
    var i := 0;
    while i < |group|
      invariant i <= |group| && |answers| == i
      invariant forall s :: s in known ==> stateAt(s) == Ok(known[s])
      invariant forall j :: 0 <= j < i ==>
                  && answers[j].0 == group[j].id
                  && OwnAnswer(render(group[j].id, outcome.value[j].0), stateAt(outcome.value[j].1), answers[j].1)
    {
      var answer;
      answer, known := AnswerItem(group[i].id, outcome.value[i], render, stateAt, known);
      answers := answers + [(group[i].id, answer)];
      i := i + 1;
    }
  }

  method Fail<R, S, E>(group: seq<Request>, error: E) returns (answers: seq<(nat, Result<(R, S), Failure<E>>)>)
    ensures |answers| == |group|
    ensures forall i :: 0 <= i < |group| ==>
              answers[i].0 == group[i].id && answers[i].1 == Err(if i == 0 then Failed(error) else WorkerClosed)
  {
    answers := [];
    while |answers| < |group|
      invariant |answers| <= |group|
      invariant forall i :: 0 <= i < |answers| ==>
                  answers[i].0 == group[i].id && answers[i].1 == Err(if i == 0 then Failed(error) else WorkerClosed)
    {
      var i := |answers|;
      answers := answers + [(group[i].id, Err(if i == 0 then Failed(error) else WorkerClosed))];
    }
  }

  method AnswerItem<T, R, S, E>(id: nat, item: (T, u64), render: (nat, T) -> Result<R, E>, stateAt: u64 -> Result<S, E>,
                                known: map<u64, S>)
    returns (answer: Result<(R, S), Failure<E>>, known': map<u64, S>)
    requires forall s :: s in known ==> stateAt(s) == Ok(known[s])
    ensures OwnAnswer(render(id, item.0), stateAt(item.1), answer)
    ensures forall s :: s in known' ==> stateAt(s) == Ok(known'[s])
  {
    known' := known;
    var response := render(id, item.0);
    if response.Err? {
      return Err(Failed(response.error)), known;
    }
    if item.1 !in known {
      var state := stateAt(item.1);
      if state.Err? {
        return Err(Failed(state.error)), known;
      }
      known' := known[item.1 := state.value];
    }
    answer := Ok((response.value, known'[item.1]));
  }
}
