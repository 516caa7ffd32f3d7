/**
  Logs across a cluster, over every run: leaders write, send and roll back, followers answer appends, fetch pages and
  install snapshots, messages are lost, repeated and arrive in any order, nodes restart.  A term is won at most once,
  which is election safety (module Cluster).
 */
module LogMatching {
  import opened Base
  import opened Keyspace
  import opened LogCache
  import opened Suffix
  import opened Append

  type NodeId = nat

  datatype Node = Node(term: u64, leading: bool, log: seq<Entry>)

  /** Who won a term, and that leader's log so far. */
  datatype Reign = Reign(leader: NodeId, log: seq<Entry>)

  /** A request, and the leader's log up to the last entry in it. */
  datatype Sent = Sent(term: u64, leader: NodeId, request: AppendRequest, log: seq<Entry>)

  /** What a peer that polls a leader is shown: its status, and the log that a page or a snapshot is taken from. */
  datatype Offer = Offer(term: u64, leader: NodeId, commit: u64, log: seq<Entry>)

  /** A follower acknowledged this log to the leader of this term. */
  datatype Ack = Ack(follower: NodeId, term: u64, log: seq<Entry>)

  datatype World = World(nodes: map<NodeId, Node>, reigns: map<u64, Reign>, sent: set<Sent>, offers: set<Offer>,
                         acks: set<Ack>)

  /**
    `Receive` may fail after the checks (a pruned prefix, a failed append): the log is then unchanged.  `Fetch` takes
    a page and acknowledges, even an empty one.  `LoseLead` is anything that ends a leadership or moves a term, a
    restart or a failed fetch included.
   */
  datatype Step =
    | Win(node: NodeId, term: u64)
    | Write(node: NodeId, createdAt: u64, operations: seq<Operation>)
    | Rollback(node: NodeId, keep: nat)
    | Send(node: NodeId, request: AppendRequest)
    | Receive(node: NodeId, message: Sent, retained: nat, fails: bool)
    | Publish(node: NodeId, commit: u64)
    | Fetch(node: NodeId, offer: Offer, upto: nat)
    | Install(node: NodeId, offer: Offer)
    | LoseLead(node: NodeId, term: u64)

  ghost predicate Enabled(checksum: Checksum, w: World, e: Step) {
    e.node in w.nodes
    && var n := w.nodes[e.node];
       match e
       case Win(_, term) => term !in w.reigns
       case Write(_, _, _) => n.leading && |n.log| < U64_MAX
       case Rollback(_, keep) => keep <= |n.log|
       case Send(_, request) => n.leading && CutFrom(checksum, request, n.log)
       case Receive(i, m, retained, _) =>
         m in w.sent && m.leader != i && n.term <= m.term && retained <= |n.log| && Ordered(m.request)
       case Publish(_, _) => n.leading
       case Fetch(i, o, upto) =>
         o in w.offers && o.leader != i && |n.log| <= upto <= |o.log| && upto <= o.commit
       case Install(i, o) => o in w.offers && o.leader != i && n.term <= o.term
       case LoseLead(_, _) => true
  }

  ghost function After(checksum: Checksum, w: World, e: Step): World
    requires Enabled(checksum, w, e)
  {
    var n := w.nodes[e.node];
    match e
    case Win(i, term) =>
      w.(nodes := w.nodes[i := Node(term, true, n.log)], reigns := w.reigns[term := Reign(i, n.log)])
    case Write(i, at, ops) => Moved(w, i, n.(log := n.log + [Entry(|n.log| + 1, n.term, at, ops)]))
    case Rollback(i, keep) => Moved(w, i, n.(log := n.log[..keep]))
    case Send(i, request) =>
      w.(sent := w.sent + {Sent(n.term, i, request, n.log[..Start(request) + |request.entries|])})
    case Receive(i, m, retained, fails) =>
      var log := Outcome(checksum, n.log, retained, m.request);
      if log.None? || fails then w.(nodes := w.nodes[i := Node(m.term, false, n.log)])
      else w.(nodes := w.nodes[i := Node(m.term, false, log.value)], acks := w.acks + {Ack(i, m.term, log.value)})
    case Publish(i, commit) => w.(offers := w.offers + {Offer(n.term, i, commit, n.log)})
    case Fetch(i, o, upto) =>
      var log := n.log + o.log[|n.log|..upto];
      Moved(w, i, if o.term < n.term then n.(log := log) else Node(o.term, false, log))
        .(acks := w.acks + {Ack(i, o.term, log)})
    case Install(i, o) =>
      w.(nodes := w.nodes[i := Node(o.term, false, o.log)], acks := w.acks + {Ack(i, o.term, o.log)})
    case LoseLead(i, term) => w.(nodes := w.nodes[i := Node(term, false, n.log)])
  }

  /** A node moves on; the log of a leader's reign moves with it. */
  ghost function Moved(w: World, i: NodeId, n: Node): World {
    w.(nodes := w.nodes[i := n], reigns := if n.leading then w.reigns[n.term := Reign(i, n.log)] else w.reigns)
  }

  /**
    What the code does not check.  An append that names no entry before it joins the follower's log at an entry both
    have; so does a fetched page; and a leader drops only entries that no other log and no message holds.
   */
  ghost predicate Careful(checksum: Checksum, w: World, e: Step)
    requires Enabled(checksum, w, e)
  {
    var n := w.nodes[e.node];
    match e
    case Rollback(i, keep) => n.leading && keep < |n.log| ==> NoneHeld(w, i, keep)
    case Receive(_, m, retained, fails) =>
      !fails && Outcome(checksum, n.log, retained, m.request).Some? ==> SharedAt(n.log, m.log, Start(m.request))
    case Fetch(_, o, _) => SharedAt(n.log, o.log, |n.log|)
    case _ => true
  }

  /** No entry of this term at or above a position. */
  ghost predicate HoldsNone(log: seq<Entry>, term: u64, keep: nat) {
    forall k :: keep <= k < |log| ==> log[k].term != term
  }

  ghost predicate NoneHeld(w: World, i: NodeId, keep: nat)
    requires i in w.nodes
  {
    var t := w.nodes[i].term;
    && (forall j :: j in w.nodes && j != i ==> HoldsNone(w.nodes[j].log, t, keep))
    && (forall u :: u in w.reigns && u != t ==> HoldsNone(w.reigns[u].log, t, keep))
    && (forall m :: m in w.sent && m.term == t ==> |m.log| <= keep)
    && (forall o :: o in w.offers && o.term == t ==> |o.log| <= keep)
    && (forall a :: a in w.acks && a.term == t ==> |a.log| <= keep)
  }

  ghost predicate IsRun(checksum: Checksum, w: World, steps: seq<Step>, w': World)
    decreases |steps|
  {
    if steps == [] then w' == w
    else Enabled(checksum, w, steps[0]) && IsRun(checksum, After(checksum, w, steps[0]), steps[1..], w')
  }

  ghost predicate CarefulRun(checksum: Checksum, w: World, steps: seq<Step>)
    decreases |steps|
  {
    steps == []
    || (Enabled(checksum, w, steps[0]) && Careful(checksum, w, steps[0])
        && CarefulRun(checksum, After(checksum, w, steps[0]), steps[1..]))
  }

  /** Empty logs, nobody elected. */
  ghost predicate Initial(w: World) {
    && (forall i :: i in w.nodes ==> w.nodes[i].log == [] && !w.nodes[i].leading)
    && w.reigns == map[] && w.sent == {} && w.offers == {} && w.acks == {}
  }

  // ---------------------------------------------------------------- invariant

  /** Entry `i` was written in a known reign, on top of exactly the entries before it. */
  ghost predicate RootedAt(reigns: map<u64, Reign>, log: seq<Entry>, i: nat)
    requires i < |log|
  {
    var t := log[i].term;
    t in reigns && i < |reigns[t].log| && log[..i + 1] == reigns[t].log[..i + 1]
  }

  ghost predicate Rooted(reigns: map<u64, Reign>, log: seq<Entry>) {
    Numbered(log, 0) && forall i :: 0 <= i < |log| ==> RootedAt(reigns, log, i)
  }

  ghost predicate NodeKept(w: World, i: NodeId, n: Node) {
    Rooted(w.reigns, n.log) && (n.leading ==> n.term in w.reigns && w.reigns[n.term] == Reign(i, n.log))
  }

  ghost predicate SentKept(checksum: Checksum, w: World, m: Sent) {
    && m.term in w.reigns && w.reigns[m.term].leader == m.leader && m.log <= w.reigns[m.term].log
    && CutFrom(checksum, m.request, m.log)
  }

  ghost predicate OfferKept(w: World, o: Offer) {
    o.term in w.reigns && w.reigns[o.term].leader == o.leader && o.log <= w.reigns[o.term].log
  }

  ghost predicate AckKept(w: World, a: Ack) {
    a.term in w.reigns && a.log <= w.reigns[a.term].log
  }

  ghost predicate Inv(checksum: Checksum, w: World) {
    && (forall i :: i in w.nodes ==> NodeKept(w, i, w.nodes[i]))
    && (forall t :: t in w.reigns ==> Rooted(w.reigns, w.reigns[t].log))
    && (forall m :: m in w.sent ==> SentKept(checksum, w, m))
    && (forall o :: o in w.offers ==> OfferKept(w, o))
    && (forall a :: a in w.acks ==> AckKept(w, a))
  }

  /** Reigns are only added to. */
  ghost predicate Grown(reigns: map<u64, Reign>, reigns': map<u64, Reign>) {
    forall t :: t in reigns ==>
      t in reigns' && reigns'[t].leader == reigns[t].leader && reigns[t].log <= reigns'[t].log
  }

  lemma {:induction false} RootedGrows(reigns: map<u64, Reign>, reigns': map<u64, Reign>, log: seq<Entry>)
    requires Rooted(reigns, log) && Grown(reigns, reigns')
    ensures Rooted(reigns', log)
  {
    forall i | 0 <= i < |log| ensures RootedAt(reigns', log, i) {
      assert RootedAt(reigns, log, i);
      var t := log[i].term;
      assert reigns'[t].log[..i + 1] == reigns[t].log[..i + 1];
    }
  }

  lemma {:induction false} RootedPrefix(reigns: map<u64, Reign>, log: seq<Entry>, k: nat)
    requires Rooted(reigns, log) && k <= |log|
    ensures Rooted(reigns, log[..k])
  {
    forall i | 0 <= i < k ensures RootedAt(reigns, log[..k], i) {
      assert RootedAt(reigns, log, i);
      assert log[..k][..i + 1] == log[..i + 1];
    }
  }

  /** Rooted logs match wherever their terms do. */
  lemma {:induction false} RootedMatch(reigns: map<u64, Reign>, a: seq<Entry>, b: seq<Entry>, i: nat)
    requires Rooted(reigns, a) && Rooted(reigns, b) && i < |a| && i < |b| && a[i].term == b[i].term
    ensures a[..i + 1] == b[..i + 1]
  {
    assert RootedAt(reigns, a, i) && RootedAt(reigns, b, i);
  }

  lemma {:induction false} RootedMatching(checksum: Checksum, reigns: map<u64, Reign>, a: seq<Entry>, b: seq<Entry>)
    requires Rooted(reigns, a) && Rooted(reigns, b)
    ensures Matching(checksum, a, b)
  {
    hide Rooted;
    forall i | 0 <= i < |a| && i < |b| && IdentityOf(checksum, a[i]) == IdentityOf(checksum, b[i])
      ensures a[..i + 1] == b[..i + 1]
    {
      RootedMatch(reigns, a, b, i);
    }
  }

  /** What a leader writes is rooted in its own reign. */
  lemma {:induction false} WrittenRooted(reigns: map<u64, Reign>, log: seq<Entry>, e: Entry, leader: NodeId)
    requires Rooted(reigns, log) && |log| < U64_MAX && e.sequence == |log| + 1
    requires e.term in reigns && reigns[e.term] == Reign(leader, log)
    ensures var reigns' := reigns[e.term := Reign(leader, log + [e])];
            Grown(reigns, reigns') && Rooted(reigns', log + [e])
  {
    var log', reigns' := log + [e], reigns[e.term := Reign(leader, log + [e])];
    RootedGrows(reigns, reigns', log);
    forall i | 0 <= i < |log'| ensures RootedAt(reigns', log', i) {
      if i < |log| {
        assert RootedAt(reigns', log, i);
        assert log'[..i + 1] == log[..i + 1];
      }
    }
  }

  /** Everything already recorded stays recorded when reigns grow. */
  lemma {:induction false} RecordsGrow(checksum: Checksum, w: World, w': World)
    requires Inv(checksum, w) && Grown(w.reigns, w'.reigns)
    ensures forall t :: t in w.reigns ==> Rooted(w'.reigns, w.reigns[t].log)
    ensures forall i :: i in w.nodes ==> Rooted(w'.reigns, w.nodes[i].log)
    ensures forall m :: m in w.sent ==> SentKept(checksum, w', m)
    ensures forall o :: o in w.offers ==> OfferKept(w', o)
    ensures forall a :: a in w.acks ==> AckKept(w', a)
  {
    hide Rooted, CutFrom;
    forall t | t in w.reigns ensures Rooted(w'.reigns, w.reigns[t].log) {
      RootedGrows(w.reigns, w'.reigns, w.reigns[t].log);
    }
    forall i | i in w.nodes ensures Rooted(w'.reigns, w.nodes[i].log) {
      assert NodeKept(w, i, w.nodes[i]);
      RootedGrows(w.reigns, w'.reigns, w.nodes[i].log);
    }
    forall m | m in w.sent ensures SentKept(checksum, w', m) {
      assert SentKept(checksum, w, m);
    }
    forall o | o in w.offers ensures OfferKept(w', o) {
      assert OfferKept(w, o);
    }
    forall a | a in w.acks ensures AckKept(w', a) {
      assert AckKept(w, a);
    }
  }

  // ---------------------------------------------------------------- steps

  /** A step that moves one node, and adds only to that node's reigns, keeps everything that already stood. */
  lemma {:induction false} GrowingStep(checksum: Checksum, w: World, w': World, i: NodeId)
    requires Inv(checksum, w) && Grown(w.reigns, w'.reigns) && i in w.nodes
    requires w'.nodes.Keys == w.nodes.Keys && (forall j :: j in w.nodes && j != i ==> w'.nodes[j] == w.nodes[j])
    requires forall u :: u in w.reigns && w.reigns[u].leader != i ==> w'.reigns[u] == w.reigns[u]
    requires forall u :: u in w'.reigns && !(u in w.reigns && w'.reigns[u] == w.reigns[u]) ==>
               Rooted(w'.reigns, w'.reigns[u].log)
    requires NodeKept(w', i, w'.nodes[i])
    requires forall m :: m in w'.sent && m !in w.sent ==> SentKept(checksum, w', m)
    requires forall o :: o in w'.offers && o !in w.offers ==> OfferKept(w', o)
    requires forall a :: a in w'.acks && a !in w.acks ==> AckKept(w', a)
    ensures Inv(checksum, w')
  {
    hide Rooted, CutFrom, SentKept, OfferKept, AckKept;
    RecordsGrow(checksum, w, w');
    forall j | j in w'.nodes ensures NodeKept(w', j, w'.nodes[j]) {
      if j != i {
        assert NodeKept(w, j, w.nodes[j]);
      }
    }
  }

  lemma {:induction false} WinStep(checksum: Checksum, w: World, e: Step)
    requires Inv(checksum, w) && Enabled(checksum, w, e) && e.Win?
    ensures Inv(checksum, After(checksum, w, e))
  {
    hide Rooted, SentKept, OfferKept, AckKept;
    var w', n := After(checksum, w, e), w.nodes[e.node];
    assert NodeKept(w, e.node, n);
    RootedGrows(w.reigns, w'.reigns, n.log);
    GrowingStep(checksum, w, w', e.node);
  }

  lemma {:induction false} WriteStep(checksum: Checksum, w: World, e: Step)
    requires Inv(checksum, w) && Enabled(checksum, w, e) && e.Write?
    ensures Inv(checksum, After(checksum, w, e))
  {
    hide Rooted, SentKept, OfferKept, AckKept;
    var w', n := After(checksum, w, e), w.nodes[e.node];
    assert NodeKept(w, e.node, n);
    WrittenRooted(w.reigns, n.log, Entry(|n.log| + 1, n.term, e.createdAt, e.operations), e.node);
    GrowingStep(checksum, w, w', e.node);
  }

  /** What is sent or shown is cut from the leader's log, and losing the lead changes no log. */
  lemma {:induction false} QuietStep(checksum: Checksum, w: World, e: Step)
    requires Inv(checksum, w) && Enabled(checksum, w, e) && (e.Send? || e.Publish? || e.LoseLead?)
    ensures Inv(checksum, After(checksum, w, e))
  {
    hide Rooted, CutFrom;
    var w', n := After(checksum, w, e), w.nodes[e.node];
    assert NodeKept(w, e.node, n);
    if e.Send? {
      CutShorter(checksum, e.request, n.log);
    }
    GrowingStep(checksum, w, w', e.node);
  }

  lemma {:induction false} CutShorter(checksum: Checksum, m: AppendRequest, log: seq<Entry>)
    requires CutFrom(checksum, m, log)
    ensures Start(m) + |m.entries| <= |log| && CutFrom(checksum, m, log[..Start(m) + |m.entries|])
  {
    var cut := log[..Start(m) + |m.entries|];
    assert cut[Start(m)..] == log[Start(m)..Start(m) + |m.entries|];
  }

  /** Installing a snapshot takes the whole log it was shown. */
  lemma {:induction false} InstallStep(checksum: Checksum, w: World, e: Step)
    requires Inv(checksum, w) && Enabled(checksum, w, e) && e.Install?
    ensures Inv(checksum, After(checksum, w, e))
  {
    hide Rooted, CutFrom, SentKept;
    var reign, o := w.reigns[e.offer.term].log, e.offer;
    assert OfferKept(w, o) && Rooted(w.reigns, reign) && o.log == reign[..|o.log|];
    RootedPrefix(w.reigns, reign, |o.log|);
    GrowingStep(checksum, w, After(checksum, w, e), e.node);
  }

  /** An accepted append that joins at a shared entry leaves a prefix of the leader's log. */
  lemma {:induction false} ReceiveOutcome(checksum: Checksum, w: World, e: Step)
    requires Inv(checksum, w) && Enabled(checksum, w, e) && e.Receive?
    requires Outcome(checksum, w.nodes[e.node].log, e.retained, e.message.request).Some?
    ensures var m, n := e.message, w.nodes[e.node];
            var log := Outcome(checksum, n.log, e.retained, m.request).value;
            && Start(m.request) <= |n.log| && Start(m.request) <= |m.log| && Start(m.request) <= |log|
            && log[..Start(m.request)] == n.log[..Start(m.request)]
            && (SharedAt(n.log, m.log, Start(m.request)) ==> Rooted(w.reigns, log) && log <= m.log)
  {
    hide CutFrom, Agreeing, Refused, Matching, Rooted, SharedAt;
    var m, n := e.message, w.nodes[e.node];
    assert NodeKept(w, e.node, n) && SentKept(checksum, w, m);
    CutBounds(checksum, m.request, m.log);
    var reign := w.reigns[m.term].log;
    assert Rooted(w.reigns, reign) && m.log == reign[..|m.log|];
    RootedPrefix(w.reigns, reign, |m.log|);
    RootedMatching(checksum, w.reigns, n.log, m.log);
    RootedNumbered(w.reigns, n.log);
    AcceptedExactly(checksum, n.log, e.retained, m.request, m.log);
    RootedPrefix(w.reigns, m.log, Start(m.request) + |m.request.entries|);
  }

  lemma {:induction false} RootedNumbered(reigns: map<u64, Reign>, log: seq<Entry>)
    requires Rooted(reigns, log)
    ensures Numbered(log, 0)
  {
  }

  /** An acknowledged log and a message that are both prefixes of one log share what both reach. */
  lemma {:induction false} PrefixesShare(own: seq<Entry>, message: seq<Entry>, acked: seq<Entry>, reign: seq<Entry>,
                                         s: nat)
    requires acked <= reign && message <= reign && s <= |own| && s <= |message| && s <= |acked|
    requires acked[..s] == own[..s]
    ensures SharedAt(own, message, s)
  {
    if s > 0 {
      assert acked[..s][s - 1] == own[..s][s - 1];
    }
  }

  /** An append keeps the invariant exactly when it joins at a shared entry, or is not accepted. */
  lemma {:induction false} ReceiveStep(checksum: Checksum, w: World, e: Step)
    requires Inv(checksum, w) && Enabled(checksum, w, e) && e.Receive?
    ensures Inv(checksum, After(checksum, w, e)) <==> Careful(checksum, w, e)
  {
    hide Rooted, Outcome, CutFrom, OfferKept, Ordered, SharedAt;
    var w', m, n := After(checksum, w, e), e.message, w.nodes[e.node];
    assert NodeKept(w, e.node, n) && SentKept(checksum, w, m);
    if !e.fails && Outcome(checksum, n.log, e.retained, m.request).Some? {
      ReceiveOutcome(checksum, w, e);
    }
    if Careful(checksum, w, e) {
      GrowingStep(checksum, w, w', e.node);
    } else {
      var log := Outcome(checksum, n.log, e.retained, m.request).value;
      assert Ack(e.node, m.term, log) in w'.acks;
      if AckKept(w', Ack(e.node, m.term, log)) {
        PrefixesShare(n.log, m.log, log, w.reigns[m.term].log, Start(m.request));
      }
    }
  }

  /** A page that joins at a shared entry leaves a prefix of what was offered. */
  lemma {:induction false} SharedPage(reigns: map<u64, Reign>, log: seq<Entry>, offered: seq<Entry>, reign: seq<Entry>,
                                      upto: nat)
    requires Rooted(reigns, log) && Rooted(reigns, reign) && offered <= reign
    requires |log| <= upto <= |offered| && SharedAt(log, offered, |log|)
    ensures log + offered[|log|..upto] == reign[..upto] && Rooted(reigns, log + offered[|log|..upto])
  {
    hide Rooted;
    RootedPrefix(reigns, reign, upto);
    if |log| > 0 {
      RootedMatch(reigns, log, reign, |log| - 1);
      assert log[..|log|] == log;
    }
    assert log + offered[|log|..upto] == reign[..upto];
  }

  /** A fetch keeps the invariant exactly when the follower's last entry is the leader's there. */
  lemma {:induction false} FetchStep(checksum: Checksum, w: World, e: Step)
    requires Inv(checksum, w) && Enabled(checksum, w, e) && e.Fetch?
    ensures Inv(checksum, After(checksum, w, e)) <==> Careful(checksum, w, e)
  {
    hide Rooted, CutFrom, SentKept, SharedAt;
    var w', o, n := After(checksum, w, e), e.offer, w.nodes[e.node];
    assert NodeKept(w, e.node, n) && OfferKept(w, o);
    var log, reign := n.log + o.log[|n.log|..e.upto], w.reigns[o.term].log;
    assert log[..|n.log|] == n.log;
    assert w'.reigns[o.term] == w.reigns[o.term];
    if Careful(checksum, w, e) {
      assert Rooted(w.reigns, reign);
      SharedPage(w.reigns, n.log, o.log, reign, e.upto);
      RootedGrows(w.reigns, w'.reigns, log);
      GrowingStep(checksum, w, w', e.node);
    } else {
      assert Ack(e.node, o.term, log) in w'.acks;
      if AckKept(w', Ack(e.node, o.term, log)) {
        assert n.log[..|n.log|] == n.log;
        PrefixesShare(n.log, o.log, log, reign, |n.log|);
      }
    }
  }

  // ---------------------------------------------------------------- rollback

  /** Cutting a reign's log keeps another log rooted exactly when it has no entry of that term above the cut. */
  lemma {:induction false} RootedCut(reigns: map<u64, Reign>, t: u64, keep: nat, log: seq<Entry>)
    requires Rooted(reigns, log) && t in reigns && keep <= |reigns[t].log|
    ensures Rooted(reigns[t := reigns[t].(log := reigns[t].log[..keep])], log) <==> HoldsNone(log, t, keep)
  {
    var cut := reigns[t := reigns[t].(log := reigns[t].log[..keep])];
    if HoldsNone(log, t, keep) {
      forall i | 0 <= i < |log| ensures RootedAt(cut, log, i) {
        assert RootedAt(reigns, log, i);
        assert log[i].term == t ==> cut[t].log[..i + 1] == reigns[t].log[..i + 1];
      }
    } else {
      var k :| keep <= k < |log| && log[k].term == t;
      assert !RootedAt(cut, log, k);
    }
  }

  /** What must hold of everything else for a cut reign to keep the invariant. */
  lemma {:induction false} RollbackKept(checksum: Checksum, w: World, e: Step)
    requires Inv(checksum, w) && Enabled(checksum, w, e) && e.Rollback? && w.nodes[e.node].leading
    requires NoneHeld(w, e.node, e.keep)
    ensures Inv(checksum, After(checksum, w, e))
  {
    hide Rooted, CutFrom, HoldsNone;
    var w', n := After(checksum, w, e), w.nodes[e.node];
    var t, cut := n.term, n.log[..e.keep];
    assert NodeKept(w, e.node, n) && w'.reigns == w.reigns[t := w.reigns[t].(log := cut)];
    CutRooted(w.reigns, t, e.keep);
    forall i | i in w'.nodes ensures NodeKept(w', i, w'.nodes[i]) {
      assert NodeKept(w, i, w.nodes[i]);
      if i != e.node {
        RootedCut(w.reigns, t, e.keep, w.nodes[i].log);
      }
    }
    forall u | u in w'.reigns ensures Rooted(w'.reigns, w'.reigns[u].log) {
      if u != t {
        RootedCut(w.reigns, t, e.keep, w.reigns[u].log);
      }
    }
    forall m | m in w'.sent ensures SentKept(checksum, w', m) {
      assert SentKept(checksum, w, m);
    }
    forall o | o in w'.offers ensures OfferKept(w', o) {
      assert OfferKept(w, o);
    }
    forall a | a in w'.acks ensures AckKept(w', a) {
      assert AckKept(w, a);
    }
  }

  lemma {:induction false} CutRooted(reigns: map<u64, Reign>, t: u64, keep: nat)
    requires t in reigns && Rooted(reigns, reigns[t].log) && keep <= |reigns[t].log|
    ensures var cut := reigns[t].log[..keep]; Rooted(reigns[t := reigns[t].(log := cut)], cut)
  {
    hide Rooted;
    RootedPrefix(reigns, reigns[t].log, keep);
    RootedCut(reigns, t, keep, reigns[t].log[..keep]);
  }

  lemma {:induction false} RollbackNeeds(checksum: Checksum, w: World, e: Step)
    requires Inv(checksum, w) && Enabled(checksum, w, e) && e.Rollback? && w.nodes[e.node].leading
    requires Inv(checksum, After(checksum, w, e))
    ensures NoneHeld(w, e.node, e.keep)
  {
    hide Rooted, CutFrom, HoldsNone;
    var w', n := After(checksum, w, e), w.nodes[e.node];
    var t := n.term;
    assert NodeKept(w, e.node, n) && w'.reigns == w.reigns[t := w.reigns[t].(log := n.log[..e.keep])];
    forall j | j in w.nodes && j != e.node ensures HoldsNone(w.nodes[j].log, t, e.keep) {
      assert NodeKept(w, j, w.nodes[j]) && NodeKept(w', j, w'.nodes[j]);
      RootedCut(w.reigns, t, e.keep, w.nodes[j].log);
    }
    forall u | u in w.reigns && u != t ensures HoldsNone(w.reigns[u].log, t, e.keep) {
      assert Rooted(w'.reigns, w'.reigns[u].log);
      RootedCut(w.reigns, t, e.keep, w.reigns[u].log);
    }
    forall m | m in w.sent && m.term == t ensures |m.log| <= e.keep {
      assert SentKept(checksum, w', m);
    }
    forall o | o in w.offers && o.term == t ensures |o.log| <= e.keep {
      assert OfferKept(w', o);
    }
    forall a | a in w.acks && a.term == t ensures |a.log| <= e.keep {
      assert AckKept(w', a);
    }
  }

  /** A rollback keeps the invariant exactly when nothing else holds what a leader drops. */
  lemma {:induction false} RollbackStep(checksum: Checksum, w: World, e: Step)
    requires Inv(checksum, w) && Enabled(checksum, w, e) && e.Rollback?
    ensures Inv(checksum, After(checksum, w, e)) <==> Careful(checksum, w, e)
  {
    hide Rooted, SentKept, OfferKept, AckKept, NoneHeld;
    var w', n := After(checksum, w, e), w.nodes[e.node];
    assert NodeKept(w, e.node, n);
    if n.leading && e.keep < |n.log| {
      if NoneHeld(w, e.node, e.keep) {
        RollbackKept(checksum, w, e);
      } else if Inv(checksum, w') {
        RollbackNeeds(checksum, w, e);
      }
    } else {
      assert e.keep == |n.log| ==> n.log[..e.keep] == n.log;
      assert w'.reigns == w.reigns;
      RootedPrefix(w.reigns, n.log, e.keep);
      GrowingStep(checksum, w, w', e.node);
    }
  }

  // ---------------------------------------------------------------- runs

  /** Each step keeps the invariant exactly when it is careful. */
  lemma {:induction false} StepExactly(checksum: Checksum, w: World, e: Step)
    requires Inv(checksum, w) && Enabled(checksum, w, e)
    ensures Inv(checksum, After(checksum, w, e)) <==> Careful(checksum, w, e)
  {
    hide Inv, Enabled, After, NoneHeld, SharedAt, Outcome;
    match e
    case Win(_, _) => WinStep(checksum, w, e);
    case Write(_, _, _) => WriteStep(checksum, w, e);
    case Rollback(_, _) => RollbackStep(checksum, w, e);
    case Receive(_, _, _, _) => ReceiveStep(checksum, w, e);
    case Fetch(_, _, _) => FetchStep(checksum, w, e);
    case Install(_, _) => InstallStep(checksum, w, e);
    case Send(_, _) => QuietStep(checksum, w, e);
    case Publish(_, _) => QuietStep(checksum, w, e);
    case LoseLead(_, _) => QuietStep(checksum, w, e);
  }

  lemma {:induction false} RunInv(checksum: Checksum, w: World, steps: seq<Step>, w': World)
    requires Inv(checksum, w) && IsRun(checksum, w, steps, w') && CarefulRun(checksum, w, steps)
    ensures Inv(checksum, w')
    decreases |steps|
  {
    hide Inv, Enabled, After, Careful;
    if steps != [] {
      StepExactly(checksum, w, steps[0]);
      RunInv(checksum, After(checksum, w, steps[0]), steps[1..], w');
    }
  }

  /**
    Log matching, over every careful run: if two nodes have entries of one term at one position, their logs are the
    same up to and including it.
   */
  lemma {:induction false} LogsMatch(checksum: Checksum, start: World, steps: seq<Step>, w: World, a: NodeId, b: NodeId,
                                     i: nat)
    requires Initial(start) && IsRun(checksum, start, steps, w) && CarefulRun(checksum, start, steps)
    requires a in w.nodes && b in w.nodes
    requires i < |w.nodes[a].log| && i < |w.nodes[b].log| && w.nodes[a].log[i].term == w.nodes[b].log[i].term
    ensures w.nodes[a].log[..i + 1] == w.nodes[b].log[..i + 1]
  {
    hide IsRun, CarefulRun;
    RunInv(checksum, start, steps, w);
    assert NodeKept(w, a, w.nodes[a]) && NodeKept(w, b, w.nodes[b]);
    RootedMatch(w.reigns, w.nodes[a].log, w.nodes[b].log, i);
  }

  /**
    Acknowledgements tell the truth, over every careful run: a follower that acknowledged to the leader of a term had,
    then, a prefix of that leader's log; so all who acknowledged `c` entries in a term had the same `c` entries.
   */
  lemma {:induction false} AcksAgree(checksum: Checksum, start: World, steps: seq<Step>, w: World, x: Ack, y: Ack,
                                     c: nat)
    requires Initial(start) && IsRun(checksum, start, steps, w) && CarefulRun(checksum, start, steps)
    requires x in w.acks && y in w.acks && x.term == y.term && c <= |x.log| && c <= |y.log|
    ensures x.term in w.reigns && x.log <= w.reigns[x.term].log
    ensures x.log[..c] == y.log[..c] == w.reigns[x.term].log[..c]
  {
    hide IsRun, CarefulRun;
    RunInv(checksum, start, steps, w);
    assert AckKept(w, x) && AckKept(w, y);
  }

  // ---------------------------------------------------------------- an acknowledgement withdrawn

  lemma {:induction false} RunThen(checksum: Checksum, w: World, steps: seq<Step>, mid: World, e: Step)
    requires IsRun(checksum, w, steps, mid) && Enabled(checksum, mid, e)
    ensures IsRun(checksum, w, steps + [e], After(checksum, mid, e))
    ensures CarefulRun(checksum, w, steps) && Careful(checksum, mid, e) ==> CarefulRun(checksum, w, steps + [e])
    decreases |steps|
  {
    hide Enabled, After, Careful;
    if steps == [] {
      assert [e][0] == e && [e][1..] == [] && [] + [e] == [e];
      assert IsRun(checksum, After(checksum, mid, e), [], After(checksum, mid, e));
    } else {
      assert (steps + [e])[0] == steps[0] && (steps + [e])[1..] == steps[1..] + [e];
      RunThen(checksum, After(checksum, w, steps[0]), steps[1..], mid, e);
    }
  }

  /** Two nodes, nothing written yet. */
  ghost const PAIR: World := World(map[0 := Node(0, false, []), 1 := Node(0, false, [])], map[], {}, {}, {})

  const FIRST: Entry := Entry(1, 1, 5, [])
  const SECOND: Entry := Entry(2, 1, 6, [])

  ghost function Lead(log: seq<Entry>, follower: seq<Entry>, sent: set<Sent>, acks: set<Ack>, term: u64): World {
    World(map[0 := Node(1, true, log), 1 := Node(term, false, follower)], map[1 := Reign(0, log)], sent, {}, acks)
  }

  /** Node 0 wins term 1, writes an entry and sends it. */
  lemma {:induction false} OneSent(checksum: Checksum, one: Sent) returns (steps: seq<Step>)
    requires one == Sent(1, 0, AppendRequest(0, None, [FIRST]), [FIRST])
    ensures IsRun(checksum, PAIR, steps, Lead([FIRST], [], {one}, {}, 0)) && CarefulRun(checksum, PAIR, steps)
  {
    var w1 := After(checksum, PAIR, Win(0, 1));
    assert w1 == Lead([], [], {}, {}, 0);
    var w2 := After(checksum, w1, Write(0, 5, []));
    assert [] + [FIRST] == [FIRST] && w2 == Lead([FIRST], [], {}, {}, 0);
    assert [FIRST][..1] == [FIRST] && CutFrom(checksum, one.request, [FIRST]);
    var w3 := After(checksum, w2, Send(0, one.request));
    assert w3 == Lead([FIRST], [], {one}, {}, 0);
    RunThen(checksum, PAIR, [], PAIR, Win(0, 1));
    RunThen(checksum, PAIR, [] + [Win(0, 1)], w1, Write(0, 5, []));
    RunThen(checksum, PAIR, [] + [Win(0, 1)] + [Write(0, 5, [])], w2, Send(0, one.request));
    steps := [] + [Win(0, 1)] + [Write(0, 5, [])] + [Send(0, one.request)];
  }

  /** It writes another and sends that one too. */
  lemma {:induction false} TwoSent(checksum: Checksum, one: Sent, two: Sent) returns (steps: seq<Step>)
    requires one == Sent(1, 0, AppendRequest(0, None, [FIRST]), [FIRST])
    requires two == Sent(1, 0, AppendRequest(1, Some(IdentityOf(checksum, FIRST)), [SECOND]), [FIRST, SECOND])
    ensures IsRun(checksum, PAIR, steps, Lead([FIRST, SECOND], [], {one, two}, {}, 0))
    ensures CarefulRun(checksum, PAIR, steps)
  {
    var s0 := OneSent(checksum, one);
    var both := [FIRST, SECOND];
    var w0 := Lead([FIRST], [], {one}, {}, 0);
    var w1 := After(checksum, w0, Write(0, 6, []));
    assert [FIRST] + [SECOND] == both && w1 == Lead(both, [], {one}, {}, 0);
    assert both[..2] == both && both[1..2] == [SECOND] && CutFrom(checksum, two.request, both);
    var w2 := After(checksum, w1, Send(0, two.request));
    assert w2 == Lead(both, [], {one, two}, {}, 0);
    RunThen(checksum, PAIR, s0, w0, Write(0, 6, []));
    RunThen(checksum, PAIR, s0 + [Write(0, 6, [])], w1, Send(0, two.request));
    steps := s0 + [Write(0, 6, [])] + [Send(0, two.request)];
  }

  /** Node 1 takes an append cut from the leader's log. */
  lemma {:induction false} Takes(checksum: Checksum, m: Sent, sent: set<Sent>, acks: set<Ack>, term: u64,
                                 log: seq<Entry>, before: seq<Entry>)
    requires m in sent && m.leader == 0 && m.term == 1 && term <= 1 && CutFrom(checksum, m.request, m.log)
    requires log <= [FIRST, SECOND] && before <= log && m.log <= log && m.request.prev == Start(m.request) <= |before|
    requires |m.log| == Start(m.request) + |m.request.entries|
    ensures var w, e := Lead(log, before, sent, acks, term), Receive(1, m, 0, false);
            && Enabled(checksum, w, e) && Careful(checksum, w, e)
            && After(checksum, w, e) == Lead(log, m.log, sent, acks + {Ack(1, 1, m.log)}, 1)
  {
    hide Outcome, CutFrom;
    CutOrdered(checksum, m.request, m.log);
    CutBounds(checksum, m.request, m.log);
    assert WholeLog(before, 0) && Matching(checksum, before, m.log);
    assert SharedAt(before, m.log, Start(m.request));
    JoinedIsLeaderPrefix(checksum, before, 0, m.request, m.log);
    assert m.log[..|m.log|] == m.log;
  }

  /**
    The first append delivered again after the second: node 1 had acknowledged two entries, and drops the second
    although its leader, still in office, has it.
   */
  lemma {:induction false} RepeatedAppendWithdraws(checksum: Checksum) returns (steps: seq<Step>, w: World)
    ensures Initial(PAIR) && IsRun(checksum, PAIR, steps, w) && CarefulRun(checksum, PAIR, steps)
    ensures w.nodes.Keys == {0, 1} && Ack(1, 1, [FIRST, SECOND]) in w.acks && w.nodes[1].log == [FIRST]
    ensures w.nodes[0] == Node(1, true, [FIRST, SECOND])
  {
    hide Enabled, After, Careful;
    var one := Sent(1, 0, AppendRequest(0, None, [FIRST]), [FIRST]);
    var two := Sent(1, 0, AppendRequest(1, Some(IdentityOf(checksum, FIRST)), [SECOND]), [FIRST, SECOND]);
    var sent := {one, two};
    var both := [FIRST, SECOND];
    assert both[1..2] == [SECOND];
    assert CutFrom(checksum, one.request, one.log) && CutFrom(checksum, two.request, two.log);
    var s0 := TwoSent(checksum, one, two);
    var w0 := Lead(both, [], sent, {}, 0);
    Takes(checksum, one, sent, {}, 0, both, []);
    var a1 := {} + {Ack(1, 1, [FIRST])};
    var w1 := Lead(both, [FIRST], sent, a1, 1);
    RunThen(checksum, PAIR, s0, w0, Receive(1, one, 0, false));
    var s1 := s0 + [Receive(1, one, 0, false)];
    Takes(checksum, two, sent, a1, 1, both, [FIRST]);
    var a2 := a1 + {Ack(1, 1, both)};
    var w2 := Lead(both, both, sent, a2, 1);
    RunThen(checksum, PAIR, s1, w1, Receive(1, two, 0, false));
    var s2 := s1 + [Receive(1, two, 0, false)];
    Takes(checksum, one, sent, a2, 1, both, both);
    RunThen(checksum, PAIR, s2, w2, Receive(1, one, 0, false));
    steps := s2 + [Receive(1, one, 0, false)];
    w := Lead(both, [FIRST], sent, a2 + {Ack(1, 1, [FIRST])}, 1);
  }

  // ---------------------------------------------------------------- the conditions are needed

  /** Two logs have entries of one term at one position and differ up to it. */
  ghost predicate Mismatch(a: seq<Entry>, b: seq<Entry>, i: nat) {
    i < |a| && i < |b| && a[i].term == b[i].term && a[..i + 1] != b[..i + 1]
  }

  const AGAIN: Entry := Entry(1, 1, 6, [])

  lemma {:induction false} GivesUp(checksum: Checksum, sent: set<Sent>, acks: set<Ack>)
    ensures var w, e := Lead([FIRST], [FIRST], sent, acks, 1), Rollback(0, 0);
            Enabled(checksum, w, e) && After(checksum, w, e) == Lead([], [FIRST], sent, acks, 1)
    ensures var w, e := Lead([], [FIRST], sent, acks, 1), Write(0, 6, []);
            Enabled(checksum, w, e) && After(checksum, w, e) == Lead([AGAIN], [FIRST], sent, acks, 1)
  {
    assert [FIRST][..0] == [] && [] + [AGAIN] == [AGAIN];
  }

  /**
    A leader sends an entry, gives up on it, rolls back and writes another at the same sequence and term: its log and
    the log its follower acknowledged disagree.
   */
  lemma {:induction false} RollbackDiverges(checksum: Checksum) returns (steps: seq<Step>, w: World)
    ensures Initial(PAIR) && IsRun(checksum, PAIR, steps, w) && w.nodes.Keys == {0, 1} && 1 in w.reigns
    ensures Mismatch(w.nodes[0].log, w.nodes[1].log, 0)
    ensures Ack(1, 1, [FIRST]) in w.acks && !([FIRST] <= w.reigns[1].log)
  {
    hide Enabled, After, Careful;
    var one := Sent(1, 0, AppendRequest(0, None, [FIRST]), [FIRST]);
    assert CutFrom(checksum, one.request, one.log);
    var s0 := OneSent(checksum, one);
    Takes(checksum, one, {one}, {}, 0, [FIRST], []);
    var acks := {} + {Ack(1, 1, [FIRST])};
    RunThen(checksum, PAIR, s0, Lead([FIRST], [], {one}, {}, 0), Receive(1, one, 0, false));
    var s1 := s0 + [Receive(1, one, 0, false)];
    GivesUp(checksum, {one}, acks);
    RunThen(checksum, PAIR, s1, Lead([FIRST], [FIRST], {one}, acks, 1), Rollback(0, 0));
    RunThen(checksum, PAIR, s1 + [Rollback(0, 0)], Lead([], [FIRST], {one}, acks, 1), Write(0, 6, []));
    steps, w := s1 + [Rollback(0, 0)] + [Write(0, 6, [])], Lead([AGAIN], [FIRST], {one}, acks, 1);
    assert [AGAIN][..1][0] != [FIRST][..1][0];
  }

  ghost const TRIO: World :=
    World(map[0 := Node(0, false, []), 1 := Node(0, false, []), 2 := Node(0, false, [])], map[], {}, {}, {})

  const LONE: Entry := Entry(1, 1, 5, [])
  const NEXT: Entry := Entry(1, 2, 6, [])
  const LAST: Entry := Entry(2, 2, 7, [])

  /** Node 0 leads term 2, node 1 follows, node 2 has the lone entry of the term it won before. */
  ghost function Stale(leader: seq<Entry>, follower: Node, stale: Node, sent: set<Sent>, offers: set<Offer>,
                       acks: set<Ack>): World
  {
    World(map[0 := Node(2, true, leader), 1 := follower, 2 := stale], map[1 := Reign(2, [LONE]), 2 := Reign(0, leader)],
          sent, offers, acks)
  }

  /** Node 2 wins term 1 and logs its first entry, which reaches nobody; node 0 wins term 2. */
  lemma {:induction false} Deposed(checksum: Checksum) returns (steps: seq<Step>)
    ensures IsRun(checksum, TRIO, steps, Stale([], Node(0, false, []), Node(2, false, [LONE]), {}, {}, {}))
    ensures CarefulRun(checksum, TRIO, steps)
  {
    var w1 := After(checksum, TRIO, Win(2, 1));
    var w2 := After(checksum, w1, Write(2, 5, []));
    assert [] + [LONE] == [LONE];
    var w3 := After(checksum, w2, Win(0, 2));
    var w4 := After(checksum, w3, LoseLead(2, 2));
    assert w4 == Stale([], Node(0, false, []), Node(2, false, [LONE]), {}, {}, {});
    RunThen(checksum, TRIO, [], TRIO, Win(2, 1));
    RunThen(checksum, TRIO, [] + [Win(2, 1)], w1, Write(2, 5, []));
    RunThen(checksum, TRIO, [] + [Win(2, 1)] + [Write(2, 5, [])], w2, Win(0, 2));
    steps := [] + [Win(2, 1)] + [Write(2, 5, [])] + [Win(0, 2)];
    RunThen(checksum, TRIO, steps, w3, LoseLead(2, 2));
    steps := steps + [LoseLead(2, 2)];
  }

  lemma {:induction false} WritesOne(checksum: Checksum, log: seq<Entry>, e: Entry)
    requires |log| < U64_MAX && e == Entry(|log| + 1, 2, e.createdAt, [])
    ensures var idle, stale := Node(0, false, []), Node(2, false, [LONE]);
            var w, step := Stale(log, idle, stale, {}, {}, {}), Write(0, e.createdAt, []);
            && Enabled(checksum, w, step) && Careful(checksum, w, step)
            && After(checksum, w, step) == Stale(log + [e], idle, stale, {}, {}, {})
  {
  }

  lemma {:induction false} WritesTwo(checksum: Checksum) returns (steps: seq<Step>)
    ensures IsRun(checksum, TRIO, steps, Stale([NEXT, LAST], Node(0, false, []), Node(2, false, [LONE]), {}, {}, {}))
    ensures CarefulRun(checksum, TRIO, steps)
  {
    hide Enabled, After, Careful;
    var s0 := Deposed(checksum);
    var idle, stale := Node(0, false, []), Node(2, false, [LONE]);
    WritesOne(checksum, [], NEXT);
    WritesOne(checksum, [NEXT], LAST);
    assert [] + [NEXT] == [NEXT] && [NEXT] + [LAST] == [NEXT, LAST];
    RunThen(checksum, TRIO, s0, Stale([], idle, stale, {}, {}, {}), Write(0, 6, []));
    RunThen(checksum, TRIO, s0 + [Write(0, 6, [])], Stale([NEXT], idle, stale, {}, {}, {}), Write(0, 7, []));
    steps := s0 + [Write(0, 6, [])] + [Write(0, 7, [])];
  }

  lemma {:induction false} SendsAll(checksum: Checksum, m: Sent)
    requires m == Sent(2, 0, AppendRequest(0, None, [NEXT, LAST]), [NEXT, LAST])
    ensures CutFrom(checksum, m.request, m.log)
    ensures var idle, stale := Node(0, false, []), Node(2, false, [LONE]);
            var w, e := Stale([NEXT, LAST], idle, stale, {}, {}, {}), Send(0, m.request);
            && Enabled(checksum, w, e) && Careful(checksum, w, e)
            && After(checksum, w, e) == Stale([NEXT, LAST], idle, stale, {m}, {}, {})
  {
    assert m.log[..2] == m.log && m.log[0..2] == m.log;
  }

  lemma {:induction false} TakesAll(checksum: Checksum, m: Sent)
    requires m == Sent(2, 0, AppendRequest(0, None, [NEXT, LAST]), [NEXT, LAST]) && CutFrom(checksum, m.request, m.log)
    ensures var stale := Node(2, false, [LONE]);
            var w, e := Stale([NEXT, LAST], Node(0, false, []), stale, {m}, {}, {}), Receive(1, m, 0, false);
            && Enabled(checksum, w, e) && Careful(checksum, w, e)
            && After(checksum, w, e) ==
               Stale([NEXT, LAST], Node(2, false, [NEXT, LAST]), stale, {m}, {}, {Ack(1, 2, [NEXT, LAST])})
  {
    hide Outcome, CutFrom;
    CutOrdered(checksum, m.request, m.log);
    assert SharedAt([], m.log, 0);
    JoinedIsLeaderPrefix(checksum, [], 0, m.request, m.log);
    assert m.log[..2] == m.log;
    assert {} + {Ack(1, 2, [NEXT, LAST])} == {Ack(1, 2, [NEXT, LAST])};
  }

  /** Node 0 writes two entries and node 1 acknowledges both: with node 0 itself, a majority of three. */
  lemma {:induction false} Outvoted(checksum: Checksum, m: Sent) returns (steps: seq<Step>)
    requires m == Sent(2, 0, AppendRequest(0, None, [NEXT, LAST]), [NEXT, LAST])
    ensures IsRun(checksum, TRIO, steps,
                  Stale([NEXT, LAST], Node(2, false, [NEXT, LAST]), Node(2, false, [LONE]), {m}, {},
                        {Ack(1, 2, [NEXT, LAST])}))
    ensures CarefulRun(checksum, TRIO, steps)
  {
    hide Enabled, After, Careful, CutFrom;
    var s0 := WritesTwo(checksum);
    var idle, stale := Node(0, false, []), Node(2, false, [LONE]);
    SendsAll(checksum, m);
    RunThen(checksum, TRIO, s0, Stale(m.log, idle, stale, {}, {}, {}), Send(0, m.request));
    TakesAll(checksum, m);
    RunThen(checksum, TRIO, s0 + [Send(0, m.request)], Stale(m.log, idle, stale, {m}, {}, {}), Receive(1, m, 0, false));
    steps := s0 + [Send(0, m.request)] + [Receive(1, m, 0, false)];
  }

  /**
    Two logs that end in the same entry over different ones, and two acknowledgements of that entry to the leader of
    its term: what `LogsMatch` and `AcksAgree` deny of careful runs.
   */
  ghost predicate Diverged(w: World) {
    && w.nodes.Keys == {0, 1, 2} && Mismatch(w.nodes[0].log, w.nodes[2].log, 1)
    && Ack(1, 2, [NEXT, LAST]) in w.acks && Ack(2, 2, [LONE, LAST]) in w.acks
  }

  /** Node 2 polls the new leader, fetches what comes after its own one entry, and acknowledges two. */
  lemma {:induction false} FetchDiverges(checksum: Checksum) returns (steps: seq<Step>, w: World)
    ensures Initial(TRIO) && IsRun(checksum, TRIO, steps, w) && Diverged(w)
  {
    var both := [NEXT, LAST];
    var m, offer := Sent(2, 0, AppendRequest(0, None, both), both), Offer(2, 0, 2, both);
    var s0 := Outvoted(checksum, m);
    var follower, stale := Node(2, false, both), Node(2, false, [LONE]);
    var w0 := Stale(both, follower, stale, {m}, {}, {Ack(1, 2, both)});
    var w1 := After(checksum, w0, Publish(0, 2));
    assert w1 == Stale(both, follower, stale, {m}, {offer}, {Ack(1, 2, both)});
    w := After(checksum, w1, Fetch(2, offer, 2));
    assert [LONE] + both[1..2] == [LONE, LAST];
    RunThen(checksum, TRIO, s0, w0, Publish(0, 2));
    RunThen(checksum, TRIO, s0 + [Publish(0, 2)], w1, Fetch(2, offer, 2));
    steps := s0 + [Publish(0, 2)] + [Fetch(2, offer, 2)];
    assert both[..2][0] != [LONE, LAST][..2][0];
  }

  lemma {:induction false} JoinsUnchecked(checksum: Checksum, m: Sent, rest: Sent)
    requires m.log == [NEXT, LAST] && rest == Sent(2, 0, AppendRequest(0, None, [LAST]), [NEXT, LAST])
    ensures var follower, stale, acks := Node(2, false, m.log), Node(2, false, [LONE]), {Ack(1, 2, m.log)};
            var w0 := Stale(m.log, follower, stale, {m}, {}, acks);
            var w1 := Stale(m.log, follower, stale, {m, rest}, {}, acks);
            && Enabled(checksum, w0, Send(0, rest.request)) && After(checksum, w0, Send(0, rest.request)) == w1
            && Enabled(checksum, w1, Receive(2, rest, 0, false))
            && After(checksum, w1, Receive(2, rest, 0, false)) ==
               Stale(m.log, follower, Node(2, false, [LONE, LAST]), {m, rest}, {}, acks + {Ack(2, 2, [LONE, LAST])})
  {
    assert m.log[1..2] == [LAST] && m.log[..2] == m.log && CutFrom(checksum, rest.request, m.log);
    assert [LONE][..1] + [LAST][0..] == [LONE, LAST];
    assert Outcome(checksum, [LONE], 0, rest.request) == Some([LONE, LAST]);
  }

  /** So does an append from a leader that has pruned its first entry and so names none before the second. */
  lemma {:induction false} PrunedAppendDiverges(checksum: Checksum) returns (steps: seq<Step>, w: World)
    ensures Initial(TRIO) && IsRun(checksum, TRIO, steps, w) && Diverged(w)
  {
    hide Enabled, After, Careful;
    var both := [NEXT, LAST];
    var m, rest := Sent(2, 0, AppendRequest(0, None, both), both), Sent(2, 0, AppendRequest(0, None, [LAST]), both);
    var s0 := Outvoted(checksum, m);
    var follower, stale, acks := Node(2, false, both), Node(2, false, [LONE]), {Ack(1, 2, both)};
    JoinsUnchecked(checksum, m, rest);
    RunThen(checksum, TRIO, s0, Stale(both, follower, stale, {m}, {}, acks), Send(0, rest.request));
    var s1 := s0 + [Send(0, rest.request)];
    RunThen(checksum, TRIO, s1, Stale(both, follower, stale, {m, rest}, {}, acks), Receive(2, rest, 0, false));
    steps := s1 + [Receive(2, rest, 0, false)];
    w := Stale(both, follower, Node(2, false, [LONE, LAST]), {m, rest}, {}, acks + {Ack(2, 2, [LONE, LAST])});
    assert both[..2][0] != [LONE, LAST][..2][0];
  }
}
