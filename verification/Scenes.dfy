/**
 * Building blocks of runs: from nodes that are ready in a round, the steps by which a group of them
 * accepts a block, votes, commits, times out and begins the next round.
 */
module Scenes {
  import opened Protocol
  import opened Quorum
  import opened Selector
  import opened NodeSpec
  import opened NodeLaws
  import opened NodeRuns
  import opened Cluster

  /**
   * A cluster that works on the block after the one of the given height, proposed by `last`, and a
   * state from which its runs are continued.
   */
  datatype Scene = Scene(cfg: Config, policy: Policy, height: nat, last: Id, origin: State) {
    ghost function Vals(): seq<Id> { cfg.valsAt(height + 1) }

    ghost function At(round: nat): View { View(height + 1, round) }

    ghost function Proposer(round: nat): Option<Id> { Pick(policy, Vals(), last, Low64(round)) }

    /** What every backend answers: that newest block, and consent to whatever is proposed. */
    ghost function Says(): Oracle { Oracle(Some(Last(height, last)), Vals(), true, true, false, false) }

    ghost predicate Sane() { Vals() != [] && Distinct(Vals()) }

    ghost predicate IsQuorum(q: set<Id>)
      requires Sane()
    {
      q <= Members(Vals()) && |q| == Quota(|Vals()|)
    }
  }

  // ----- the nodes of a scene -----

  ghost function Fresh(c: Scene, i: Id, round: nat, pending: Option<Proposal>): Node {
    Node(i, c.policy, c.Vals(), c.Proposer(round), c.height + 1, round, false, AcceptRequest,
         None, map[], map[], NIL_HASH, pending, map[])
  }

  ghost predicate Ready(c: Scene, n: Node, i: Id, round: nat) {
    n == Fresh(c, i, round, n.pending)
  }

  ghost function Accepted(n: Node, p: Proposal): Node {
    n.(prePrepare := Some(PrePrepare(n.CurrentView(), p)), phase := PrePrepared)
  }

  ghost function PrepareOf(v: Id, view: View, p: Proposal): Message { PrepareMsg(v, view, p.hash) }

  ghost function CommitOf(v: Id, view: View, p: Proposal): Message { CommitMsg(v, view, p.hash, Some(Seal(v, p.hash))) }

  ghost function PreparesOf(d: set<Id>, view: View, p: Proposal): MessageMap { map v | v in d :: PrepareOf(v, view, p) }

  ghost function CommitsOf(d: set<Id>, view: View, p: Proposal): MessageMap { map v | v in d :: CommitOf(v, view, p) }

  lemma OneMoreVote(d: set<Id>, v: Id, view: View, p: Proposal)
    ensures PreparesOf(d, view, p)[v := PrepareOf(v, view, p)] == PreparesOf(d + {v}, view, p)
    ensures CommitsOf(d, view, p)[v := CommitOf(v, view, p)] == CommitsOf(d + {v}, view, p)
    ensures PreparesOf(d + {v}, view, p).Keys == d + {v} == CommitsOf(d + {v}, view, p).Keys
    ensures |CommitsOf(d + {v}, view, p)| == |d + {v}|
  {
    assert |CommitsOf(d + {v}, view, p)| == |CommitsOf(d + {v}, view, p).Keys|;
  }

  /** A ready node that accepted p and holds the PREPAREs of `d`. */
  ghost function Voted(n: Node, p: Proposal, d: set<Id>): Node {
    var m := Accepted(n, p).(prepares := PreparesOf(d, n.CurrentView(), p));
    if n.Reaches(|d|) then m.(phase := Prepared, locked := p.hash) else m
  }

  /** A node past its PRE-PREPARE for p that holds the COMMITs of `e`. */
  ghost function Collected(b: Node, p: Proposal, e: set<Id>): Node {
    var m := b.(commits := CommitsOf(e, b.CurrentView(), p));
    if b.Reaches(|e|) then m.(phase := Committed, locked := p.hash) else m
  }

  /** The node is past its PRE-PREPARE for p in the round and has not committed; it may have prepared p or not. */
  ghost predicate CanCommit(c: Scene, b: Node, i: Id, round: nat, p: Proposal) {
    && b.id == i && b.vals == c.Vals() && OnBlock(b, c.At(round), p) && b.commits == map[]
    && ((b.phase == Prepared && b.locked == p.hash) || (b.phase == PrePrepared && !b.IsLocked()))
  }

  // ----- single steps -----

  lemma RequestStep(c: Scene, n: Node, i: Id, round: nat, p: Proposal)
    requires Ready(c, n, i, round) && p.height == c.height + 1
    ensures Step(n, Request(p), c.Says())
            == Effect(n.(pending := Some(p)),
                      if i in c.Vals() && c.Proposer(round) == Some(i)
                      then Some(PrePrepareMsg(i, c.At(round), p)) else None,
                      None, Ok)
  {
  }

  lemma AcceptStep(c: Scene, n: Node, i: Id, round: nat, p: Proposal)
    requires c.Sane() && Ready(c, n, i, round)
    ensures c.Proposer(round).Some?
    ensures Step(n, Deliver(PrePrepareMsg(c.Proposer(round).value, c.At(round), p)), c.Says())
            == Effect(Accepted(n, p), Some(PrepareOf(i, c.At(round), p)), None, Ok)
  {
  }

  lemma Below(c: Scene, q: set<Id>, d: set<Id>, v: Id)
    requires c.Sane() && c.IsQuorum(q) && d <= q && v in q && v !in d
    ensures |d| < Quota(|c.Vals()|) && !ReachThreshold(|c.Vals()|, |d|)
    ensures ReachThreshold(|c.Vals()|, |d + {v}|) <==> d + {v} == q
  {
    SubsetSize(d + {v}, q);
    if |d + {v}| == |q| { EqualSize(d + {v}, q); }
  }

  lemma EqualSize<T>(a: set<T>, b: set<T>)
    requires a <= b && |a| == |b|
    ensures a == b
  {
    assert b == a + (b - a);
  }

  /** The node is past its PRE-PREPARE for p, in the view. */
  ghost predicate OnBlock(n: Node, view: View, p: Proposal) {
    !n.waiting && n.CurrentView() == view && n.prePrepare == Some(PrePrepare(view, p))
  }

  lemma PrepareArrives(n: Node, view: View, p: Proposal, v: Id, o: Oracle)
    requires OnBlock(n, view, p) && n.phase == PrePrepared && !n.IsLocked() && n.commits == map[] && v in n.vals
    ensures var ms := n.prepares[v := PrepareOf(v, view, p)];
            Step(n, Deliver(PrepareOf(v, view, p)), o)
            == if ReachThreshold(|n.vals|, |ms.Keys|)
               then Effect(n.(prepares := ms, phase := Prepared, locked := p.hash),
                           Some(CommitOf(n.id, view, p)), None, Ok)
               else Effect(n.(prepares := ms), None, None, Ok)
  {
    hide ReachThreshold;
    var ms := n.prepares[v := PrepareOf(v, view, p)];
    assert ms.Keys + n.commits.Keys == ms.Keys;
  }

  lemma CommitArrives(n: Node, view: View, p: Proposal, v: Id, o: Oracle)
    requires OnBlock(n, view, p) && (n.phase == Prepared || n.phase == PrePrepared) && o.commitOk && v in n.vals
    ensures var ms := n.commits[v := CommitOf(v, view, p)];
            Step(n, Deliver(CommitOf(v, view, p)), o)
            == if ReachThreshold(|n.vals|, |ms|)
               then Effect(n.(commits := ms, phase := Committed, locked := p.hash), None,
                           Some(CommitCall(view, p, ms, true)), Ok)
               else Effect(n.(commits := ms), None, None, Ok)
  {
    hide ReachThreshold;
  }

  lemma VoteStep(c: Scene, n: Node, i: Id, round: nat, p: Proposal, q: set<Id>, d: set<Id>, v: Id)
    requires c.Sane() && c.IsQuorum(q) && Ready(c, n, i, round) && d <= q && v in q && v !in d
    ensures Step(Voted(n, p, d), Deliver(PrepareOf(v, c.At(round), p)), c.Says())
            == Effect(Voted(n, p, d + {v}),
                      if d + {v} == q then Some(CommitOf(i, c.At(round), p)) else None, None, Ok)
  {
    hide Step, ReachThreshold, Quota, Pick, PreparesOf, CommitsOf;
    Below(c, q, d, v);
    var b := Voted(n, p, d);
    assert v in c.Vals() by { assert v in Members(c.Vals()); }
    PrepareArrives(b, c.At(round), p, v, c.Says());
    OneMoreVote(d, v, c.At(round), p);
  }

  lemma CommitStep(c: Scene, b: Node, i: Id, round: nat, p: Proposal, q: set<Id>, e: set<Id>, v: Id)
    requires c.Sane() && c.IsQuorum(q) && CanCommit(c, b, i, round, p) && e <= q && v in q && v !in e
    ensures Step(Collected(b, p, e), Deliver(CommitOf(v, c.At(round), p)), c.Says())
            == Effect(Collected(b, p, e + {v}), None,
                      if e + {v} == q
                      then Some(CommitCall(c.At(round), p, Collected(b, p, e + {v}).commits, true)) else None,
                      Ok)
  {
    hide Step, ReachThreshold, Pick, CommitsOf;
    Below(c, q, e, v);
    assert v in c.Vals() by { assert v in Members(c.Vals()); }
    CommitArrives(Collected(b, p, e), c.At(round), p, v, c.Says());
    OneMoreVote(e, v, c.At(round), p);
  }

  // ----- giving up a round -----

  /** A node at the scene's height, in whatever round and state, with whatever round changes. */
  ghost predicate Works(c: Scene, n: Node, i: Id) {
    && n.id == i && n.policy == c.policy && n.vals == c.Vals() && n.sequence == c.height + 1
    && Keyed(n.roundChanges, n.vals, n.sequence)
  }

  /** One that waits in the round and has nothing left of the rounds before but round changes. */
  ghost predicate Idle(c: Scene, n: Node, i: Id, round: nat) {
    && Works(c, n, i) && n.round == round && round > 0 && n.waiting && n.prePrepare.None?
    && n.prepares == map[] && n.commits == map[] && !n.IsLocked() && n.pending.None?
  }

  ghost function AskOf(v: Id, view: View): Message { RoundChangeMsg(v, view, NIL_HASH) }

  /** Who has asked the node for its own round, going by the key. */
  ghost function Held(n: Node): set<Id> {
    if Low64(n.round) in n.roundChanges then n.roundChanges[Low64(n.round)].Keys else {}
  }

  lemma CatchUpIdles(c: Scene, n: Node, i: Id, round: nat)
    requires Works(c, n, i) && !n.IsLocked() && n.pending.None? && round > n.round
    ensures var e := SendRoundChange(n, round);
            Idle(c, e.node, i, round) && e.out == Some(AskOf(i, c.At(round))) && e.call.None?
  {
  }

  /** A timeout takes any node to a higher round, where it waits; a waiting one goes up by one. */
  lemma TimeoutStep(c: Scene, n: Node, i: Id)
    requires Works(c, n, i)
    ensures var e := Step(n, Timeout, c.Says());
            && e.node.round > n.round && (n.waiting ==> e.node.round == n.round + 1)
            && Idle(c, e.node, i, e.node.round) && e.out == Some(AskOf(i, c.At(e.node.round))) && e.call.None?
  {
    hide SendRoundChange, MaxRound;
    var u := Released(n);
    CatchUpIdles(c, u, i, n.round + 1);
    var max := MaxRound(u.roundChanges, FaultTolerantNum(|u.vals|) + 1);
    if max.Some? && max.value > u.round { CatchUpIdles(c, u, i, max.value); }
  }

  lemma AskArrives(c: Scene, n: Node, i: Id, round: nat, v: Id)
    requires Idle(c, n, i, round) && v in c.Vals()
    ensures var rcs := AddRoundChange(n.roundChanges, n.vals, AskOf(v, c.At(round)));
            Low64(round) in rcs &&
            var e := Step(n, Deliver(AskOf(v, c.At(round))), c.Says());
            && e.out.None? && e.call.None?
            && e.node == if ReachThreshold(|n.vals|, |rcs[Low64(round)]|) then Fresh(c, i, round, None)
                         else n.(roundChanges := rcs)
  {
    hide ReachThreshold, Pick;
  }

  lemma OneMoreHeld(c: Scene, n: Node, i: Id, round: nat, v: Id)
    requires Idle(c, n, i, round) && v in c.Vals()
    ensures var rcs := AddRoundChange(n.roundChanges, n.vals, AskOf(v, c.At(round)));
            && Idle(c, n.(roundChanges := rcs), i, round)
            && Low64(round) in rcs && rcs[Low64(round)].Keys == Held(n) + {v}
            && |rcs[Low64(round)]| == |Held(n) + {v}| && Held(n) + {v} <= Members(c.Vals())
  {
    var m, k := AskOf(v, c.At(round)), Low64(round);
    var rcs := AddRoundChange(n.roundChanges, n.vals, m);
    AddRoundChangeKeyed(n.roundChanges, n.vals, n.sequence, m);
    assert KeyedSet(rcs[k], n.vals, n.sequence, k);
    assert |rcs[k]| == |rcs[k].Keys|;
  }

  lemma QuorumReaches(c: Scene, q: set<Id>, held: set<Id>)
    requires c.Sane() && c.IsQuorum(q) && q <= held <= Members(c.Vals())
    ensures ReachThreshold(|c.Vals()|, |held|)
  {
    DistinctSize(c.Vals());
    SubsetSize(q, held);
    SubsetSize(held, Members(c.Vals()));
  }

  /** One more ROUND CHANGE: the node begins the round, or waits holding it. */
  lemma AskStep(c: Scene, n: Node, i: Id, round: nat, q: set<Id>, d: set<Id>, v: Id)
    requires c.Sane() && c.IsQuorum(q) && Idle(c, n, i, round) && d <= Held(n) && v in q
    ensures var e := Step(n, Deliver(AskOf(v, c.At(round))), c.Says());
            && e.out.None? && e.call.None?
            && (e.node == Fresh(c, i, round, None)
                || (Idle(c, e.node, i, round) && d + {v} <= Held(e.node) && !(q <= d + {v})))
  {
    hide Step, ReachThreshold, Quota, AddRoundChange, Fresh;
    assert v in c.Vals() by { assert v in Members(c.Vals()); }
    OneMoreHeld(c, n, i, round, v);
    AskArrives(c, n, i, round, v);
    if q <= d + {v} { QuorumReaches(c, q, Held(n) + {v}); }
  }

  // ----- stretches of a run -----

  ghost predicate IsPath(cfg: Config, ss: seq<State>, acts: seq<Action>) {
    && |ss| == |acts| + 1
    && forall k :: 0 <= k < |acts| ==> Enabled(cfg, ss[k], acts[k]) && ss[k + 1] == Next(cfg, ss[k], acts[k])
  }

  /** Some sequence of actions leads from s to s'. */
  ghost predicate Leads(cfg: Config, s: State, s': State) {
    exists ss, acts :: IsPath(cfg, ss, acts) && ss[0] == s && ss[|acts|] == s'
  }

  lemma LeadsNowhere(cfg: Config, s: State)
    ensures Leads(cfg, s, s)
  {
    var ss, acts: seq<Action> := [s], [];
    assert IsPath(cfg, ss, acts) && ss[|acts|] == s;
  }

  /** What a reachable state leads to is reachable. */
  lemma LeadsToReachable(cfg: Config, s: State, s': State)
    requires Reachable(cfg, s) && Leads(cfg, s, s')
    ensures Reachable(cfg, s')
  {
    hide Reachable, Next, Enabled;
    var ss, acts :| IsPath(cfg, ss, acts) && ss[0] == s && ss[|acts|] == s';
    PathIsReachable(cfg, ss, acts, |acts|);
  }

  lemma {:induction false} PathIsReachable(cfg: Config, ss: seq<State>, acts: seq<Action>, k: nat)
    requires IsPath(cfg, ss, acts) && Reachable(cfg, ss[0]) && k <= |acts|
    ensures Reachable(cfg, ss[k])
  {
    hide Reachable, Next, Enabled;
    if k > 0 {
      PathIsReachable(cfg, ss, acts, k - 1);
      ReachableNext(cfg, ss[k - 1], acts[k - 1]);
      assert ss[k - 1 + 1] == Next(cfg, ss[k - 1], acts[k - 1]);
    }
  }

  ghost predicate Reached(c: Scene, s: State) { Leads(c.cfg, c.origin, s) }

  lemma ReachedNext(c: Scene, s: State, a: Action)
    requires Reached(c, s) && Enabled(c.cfg, s, a)
    ensures Reached(c, Next(c.cfg, s, a))
  {
    hide Next, Enabled;
    var ss, acts :| IsPath(c.cfg, ss, acts) && ss[0] == c.origin && ss[|acts|] == s;
    assert IsPath(c.cfg, ss + [Next(c.cfg, s, a)], acts + [a]);
  }

  /** s' comes after s, and only nodes of `moved` took steps; no lock was dropped and no old-block reply sent. */
  ghost predicate Onward(c: Scene, s: State, s': State, moved: set<Id>) {
    && Reached(c, s') && Grows(s, s', moved) && s'.dropped == s.dropped
  }

  ghost predicate Grows(s: State, s': State, moved: set<Id>) {
    && s.net <= s'.net && s.decisions <= s'.decisions && s'.replied == s.replied
    && s'.nodes.Keys == s.nodes.Keys
    && forall i :: i in s.nodes && i !in moved ==> s'.nodes[i] == s.nodes[i]
  }

  /** One step of one node. */
  lemma Take(c: Scene, s: State, x: Id, ev: Event, e: Effect) returns (s': State)
    requires Reached(c, s) && x in c.cfg.honest && x in s.nodes
    requires (ev.Deliver? ==> ev.msg in s.net) && !ev.Replay?
    requires Step(s.nodes[x], ev, c.Says()) == e && RepliesOf(s.nodes[x], e.out) == {}
    ensures Reached(c, s') && Grows(s, s', {x}) && s'.nodes[x] == e.node
    ensures s'.net == s.net + OptionSet(e.out) && s'.decisions == s.decisions + DecisionsOf(x, e.call)
    ensures s'.dropped == s.dropped + if Drops(s.nodes[x], e.node) then {(x, e.node.sequence)} else {}
    ensures s'.entered == s.entered + {e.node.CurrentView()}
  {
    hide Step, Reached, RepliesOf, Drops;
    var a := Act(x, ev, c.Says());
    ReachedNext(c, s, a);
    s' := Next(c.cfg, s, a);
  }

  lemma {:induction false} InjectAll(c: Scene, s: State, ms: set<Message>) returns (s': State)
    requires Reached(c, s) && forall m :: m in ms ==> m.from !in c.cfg.honest
    ensures Onward(c, s, s', {}) && s'.net == s.net + ms && s'.nodes == s.nodes && s'.entered == s.entered
    decreases ms
  {
    hide Reached;
    if ms == {} {
      s' := s;
    } else {
      var m :| m in ms;
      ReachedNext(c, s, Inject(m));
      s' := InjectAll(c, Next(c.cfg, s, Inject(m)), ms - {m});
    }
  }

  /** An honest proposer that is ready sends a PRE-PREPARE on request; anybody can for a faulty one. */
  lemma Propose(c: Scene, s: State, round: nat, p: Proposal) returns (s': State)
    requires Reached(c, s) && c.Sane() && p.height == c.height + 1
    requires var y := c.Proposer(round).value; y in c.cfg.honest ==> y in s.nodes && Ready(c, s.nodes[y], y, round)
    ensures c.Proposer(round).Some?
    ensures var y := c.Proposer(round).value;
            && Onward(c, s, s', {y}) && PrePrepareMsg(y, c.At(round), p) in s'.net
            && (y in s.nodes && y in c.cfg.honest ==> Ready(c, s'.nodes[y], y, round))
            && (y in s.nodes && y !in c.cfg.honest ==> s'.nodes[y] == s.nodes[y])
  {
    hide Step, Reached, Pick;
    var y := c.Proposer(round).value;
    if y in c.cfg.honest {
      RequestStep(c, s.nodes[y], y, round, p);
      s' := Take(c, s, y, Request(p), Step(s.nodes[y], Request(p), c.Says()));
    } else {
      s' := InjectAll(c, s, {PrePrepareMsg(y, c.At(round), p)});
    }
  }

  /** Everyone in the group accepts the block and sends a PREPARE. */
  lemma {:induction false} GroupAccepts(c: Scene, s: State, g: set<Id>, round: nat, p: Proposal) returns (s': State)
    requires Reached(c, s) && c.Sane() && g <= c.cfg.honest && g <= s.nodes.Keys
    requires forall i :: i in g ==> Ready(c, s.nodes[i], i, round)
    requires c.Proposer(round).Some? && PrePrepareMsg(c.Proposer(round).value, c.At(round), p) in s.net
    ensures Onward(c, s, s', g)
    ensures forall i :: i in g ==> s'.nodes[i] == Accepted(s.nodes[i], p) && PrepareOf(i, c.At(round), p) in s'.net
    decreases g
  {
    hide Step, Reached, Pick, Accepted;
    if g == {} {
      s' := s;
    } else {
      var i :| i in g;
      var m := PrePrepareMsg(c.Proposer(round).value, c.At(round), p);
      AcceptStep(c, s.nodes[i], i, round, p);
      DropsNothing(c, s.nodes[i], i, round, Accepted(s.nodes[i], p));
      var t := Take(c, s, i, Deliver(m), Step(s.nodes[i], Deliver(m), c.Says()));
      s' := GroupAccepts(c, t, g - {i}, round, p);
    }
  }

  lemma DropsNothing(c: Scene, n: Node, i: Id, round: nat, n': Node)
    requires Ready(c, n, i, round)
    ensures !Drops(n, n')
  {
  }

  lemma Further(c: Scene, s: State, t: State, u: State, a: set<Id>, b: set<Id>)
    requires Onward(c, s, t, a) && Onward(c, t, u, b)
    ensures Onward(c, s, u, a + b)
  {
    hide Reached;
  }

  lemma Standing(c: Scene, s: State)
    requires Reached(c, s)
    ensures Onward(c, s, s, {})
  {
    hide Reached;
  }

  lemma VoteOnce(c: Scene, s: State, i: Id, n: Node, round: nat, p: Proposal, q: set<Id>, d: set<Id>, v: Id)
    returns (s': State)
    requires Reached(c, s) && c.Sane() && c.IsQuorum(q) && i in c.cfg.honest && i in s.nodes
    requires Ready(c, n, i, round) && s.nodes[i] == Voted(n, p, d) && d <= q && v in q && v !in d
    requires PrepareOf(v, c.At(round), p) in s.net
    ensures Onward(c, s, s', {i}) && s'.nodes[i] == Voted(n, p, d + {v})
    ensures d + {v} == q ==> CommitOf(i, c.At(round), p) in s'.net
  {
    hide Step, Reached, Pick, ReachThreshold, Quota;
    var m := PrepareOf(v, c.At(round), p);
    VoteStep(c, n, i, round, p, q, d, v);
    Below(c, q, d, v);
    s' := Take(c, s, i, Deliver(m), Step(s.nodes[i], Deliver(m), c.Says()));
  }

  /** A node that accepted the block gets the PREPAREs of a quorum and sends its COMMIT. */
  lemma {:induction false} Votes(c: Scene, s: State, i: Id, n: Node, round: nat, p: Proposal, q: set<Id>, d: set<Id>)
    returns (s': State)
    requires Reached(c, s) && c.Sane() && c.IsQuorum(q) && i in c.cfg.honest && i in s.nodes
    requires Ready(c, n, i, round) && s.nodes[i] == Voted(n, p, d) && d <= q
    requires forall v :: v in q ==> PrepareOf(v, c.At(round), p) in s.net
    ensures Onward(c, s, s', {i}) && s'.nodes[i] == Voted(n, p, q)
    ensures d != q ==> CommitOf(i, c.At(round), p) in s'.net
    decreases q - d
  {
    hide Reached, Ready, Voted, PrepareOf, CommitOf;
    if q - d == {} {
      assert d == q;
      s' := s;
      Standing(c, s);
    } else {
      var v :| v in q - d;
      var t := VoteOnce(c, s, i, n, round, p, q, d, v);
      s' := Votes(c, t, i, n, round, p, q, d + {v});
      Further(c, s, t, s', {i}, {i});
    }
  }

  lemma CommitOnce(c: Scene, s: State, i: Id, b: Node, round: nat, p: Proposal, q: set<Id>, e: set<Id>, v: Id)
    returns (s': State)
    requires Reached(c, s) && c.Sane() && c.IsQuorum(q) && i in c.cfg.honest && i in s.nodes
    requires CanCommit(c, b, i, round, p) && s.nodes[i] == Collected(b, p, e) && e <= q && v in q && v !in e
    requires CommitOf(v, c.At(round), p) in s.net
    ensures Onward(c, s, s', {i}) && s'.nodes[i] == Collected(b, p, e + {v})
    ensures e + {v} == q ==> Decision(i, c.At(round), p.hash, true) in s'.decisions
  {
    hide Step, Reached, Pick, ReachThreshold, Quota;
    var m := CommitOf(v, c.At(round), p);
    CommitStep(c, b, i, round, p, q, e, v);
    Below(c, q, e, v);
    s' := Take(c, s, i, Deliver(m), Step(s.nodes[i], Deliver(m), c.Says()));
  }

  lemma {:induction false} CollectsCommits(
    c: Scene, s: State, i: Id, b: Node, round: nat, p: Proposal, q: set<Id>, e: set<Id>)
    returns (s': State)
    requires Reached(c, s) && c.Sane() && c.IsQuorum(q) && i in c.cfg.honest && i in s.nodes
    requires CanCommit(c, b, i, round, p) && s.nodes[i] == Collected(b, p, e) && e <= q
    requires forall v :: v in q ==> CommitOf(v, c.At(round), p) in s.net
    ensures Onward(c, s, s', {i}) && s'.nodes[i] == Collected(b, p, q)
    ensures e != q ==> Decision(i, c.At(round), p.hash, true) in s'.decisions
    decreases q - e
  {
    hide Reached, CanCommit, Collected, CommitOf;
    if q - e == {} {
      assert e == q;
      s' := s;
      Standing(c, s);
    } else {
      var v :| v in q - e;
      var t := CommitOnce(c, s, i, b, round, p, q, e, v);
      s' := CollectsCommits(c, t, i, b, round, p, q, e + {v});
      Further(c, s, t, s', {i}, {i});
    }
  }

  /**
   * A node past its PRE-PREPARE commits on the COMMITs of a quorum alone, whether it has prepared the
   * block or not.
   */
  lemma Commits(c: Scene, s: State, i: Id, round: nat, p: Proposal, q: set<Id>) returns (s': State)
    requires Reached(c, s) && c.Sane() && c.IsQuorum(q) && i in c.cfg.honest && i in s.nodes
    requires CanCommit(c, s.nodes[i], i, round, p)
    requires forall v :: v in q ==> CommitOf(v, c.At(round), p) in s.net
    ensures Onward(c, s, s', {i}) && s'.nodes[i] == Collected(s.nodes[i], p, q)
    ensures Decision(i, c.At(round), p.hash, true) in s'.decisions
  {
    NoCommitsYet(c, s.nodes[i], i, round, p);
    hide Reached, CanCommit, Collected, CommitOf;
    assert q != {};
    s' := CollectsCommits(c, s, i, s.nodes[i], round, p, q, {});
  }

  lemma NoCommitsYet(c: Scene, b: Node, i: Id, round: nat, p: Proposal)
    requires c.Sane() && CanCommit(c, b, i, round, p)
    ensures Collected(b, p, {}) == b
  {
    assert CommitsOf({}, b.CurrentView(), p) == map[];
  }

  /** Everyone in the group gets the PREPAREs of the quorum. */
  lemma {:induction false} GroupVotes(
    c: Scene, s: State, g: set<Id>, ns: map<Id, Node>, round: nat, p: Proposal, q: set<Id>)
    returns (s': State)
    requires Reached(c, s) && c.Sane() && c.IsQuorum(q)
    requires g <= c.cfg.honest && g <= s.nodes.Keys && g <= ns.Keys
    requires forall i :: i in g ==> Ready(c, ns[i], i, round) && s.nodes[i] == Accepted(ns[i], p)
    requires forall v :: v in q ==> PrepareOf(v, c.At(round), p) in s.net
    ensures Onward(c, s, s', g)
    ensures forall i :: i in g ==> s'.nodes[i] == Voted(ns[i], p, q) && CommitOf(i, c.At(round), p) in s'.net
    decreases g
  {
    hide Reached, Ready, Voted, Accepted, PrepareOf, CommitOf;
    if g == {} {
      s' := s;
      Standing(c, s);
    } else {
      var i :| i in g;
      NoVotesYet(c, ns[i], i, round, p);
      var t := Votes(c, s, i, ns[i], round, p, q, {});
      s' := GroupVotes(c, t, g - {i}, ns, round, p, q);
      Further(c, s, t, s', {i}, g - {i});
      assert {i} + (g - {i}) == g;
    }
  }

  lemma NoVotesYet(c: Scene, n: Node, i: Id, round: nat, p: Proposal)
    requires c.Sane() && Ready(c, n, i, round)
    ensures Voted(n, p, {}) == Accepted(n, p)
  {
    assert PreparesOf({}, n.CurrentView(), p) == map[];
  }

  /**
   * A group of ready nodes that makes up a quorum together with faulty validators, whose PREPAREs
   * and COMMITs are there already, takes the proposed block to a commit at one of its nodes.
   */
  lemma GroupCommits(c: Scene, s: State, g: set<Id>, round: nat, p: Proposal, q: set<Id>, x: Id) returns (s': State)
    requires Reached(c, s) && c.Sane() && c.IsQuorum(q) && q * c.cfg.honest <= g
    requires g <= c.cfg.honest && g <= s.nodes.Keys && x in g
    requires forall i :: i in g ==> Ready(c, s.nodes[i], i, round)
    requires c.Proposer(round).Some? && PrePrepareMsg(c.Proposer(round).value, c.At(round), p) in s.net
    requires forall v :: v in q - c.cfg.honest ==>
               PrepareOf(v, c.At(round), p) in s.net && CommitOf(v, c.At(round), p) in s.net
    ensures Onward(c, s, s', g) && Decision(x, c.At(round), p.hash, true) in s'.decisions
    ensures forall i :: i in g ==> Works(c, s'.nodes[i], i)
  {
    hide Reached, Ready, Voted, Accepted, Collected, CanCommit, PrepareOf, CommitOf, Works, Pick;
    var s1 := GroupAccepts(c, s, g, round, p);
    var s2 := GroupVotes(c, s1, g, s.nodes, round, p, q);
    VotedCanCommit(c, s.nodes[x], x, round, p, q);
    s' := Commits(c, s2, x, round, p, q);
    Further(c, s, s1, s2, g, g);
    Further(c, s, s2, s', g + g, {x});
    assert g + g + {x} == g;
    forall i | i in g ensures Works(c, s'.nodes[i], i) { StillWorks(c, s.nodes[i], i, round, p, q); }
  }

  lemma StillWorks(c: Scene, n: Node, i: Id, round: nat, p: Proposal, q: set<Id>)
    requires Ready(c, n, i, round)
    ensures Works(c, n, i) && Works(c, Voted(n, p, q), i)
    ensures Works(c, Collected(Voted(n, p, q), p, q), i)
  {
  }

  lemma VotedCanCommit(c: Scene, n: Node, i: Id, round: nat, p: Proposal, q: set<Id>)
    requires c.Sane() && c.IsQuorum(q) && Ready(c, n, i, round)
    ensures CanCommit(c, Voted(n, p, q), i, round, p)
  {
    hide Pick;
  }

  // ----- the beginning -----

  ghost function Start(c: Scene): State {
    State(map i | i in c.cfg.honest :: Fresh(c, i, 0, None), {}, {}, {}, {}, set i | i in c.cfg.honest :: c.At(0))
  }

  /** The scene in which every honest node has just started. */
  ghost function Opening(cfg: Config, policy: Policy, height: nat, last: Id): Scene {
    var c := Scene(cfg, policy, height, last, State(map[], {}, {}, {}, {}, {}));
    c.(origin := Start(c))
  }

  lemma OpeningIsReachable(cfg: Config, policy: Policy, height: nat, last: Id)
    ensures var c := Opening(cfg, policy, height, last);
            && Reachable(cfg, c.origin) && Reached(c, c.origin)
            && c.origin.nodes.Keys == cfg.honest && c.origin.replied == {} && c.origin.dropped == {}
            && c.origin.net == {} && c.origin.entered <= {c.At(0)}
            && forall i :: i in cfg.honest ==>
                 var n := c.origin.nodes[i];
                 n == Fresh(c, i, 0, None) && Ready(c, n, i, 0) && Works(c, n, i) && !n.IsLocked()
  {
    hide Step, Pick, Reachable, Leads, Init;
    var c := Opening(cfg, policy, height, last);
    LeadsNowhere(cfg, c.origin);
    OpeningIsInitial(cfg, policy, height, last);
    InitIsReachable(cfg, c.origin);
  }

  lemma OpeningIsInitial(cfg: Config, policy: Policy, height: nat, last: Id)
    ensures Init(cfg, Opening(cfg, policy, height, last).origin)
  {
    hide Step, Pick;
    var c := Opening(cfg, policy, height, last);
    forall i | i in cfg.honest ensures Booted(cfg, c.origin.nodes[i], i, policy, Last(height, last)) {}
  }

  lemma InitIsReachable(cfg: Config, s: State)
    requires Init(cfg, s)
    ensures Reachable(cfg, s)
  {
    hide Init, Next, Enabled;
    var ss, acts: seq<Action> := [s], [];
    assert IsRun(cfg, ss, acts) && s == ss[|acts|];
  }

  lemma ReachedIsReachable(c: Scene, s: State)
    requires Reachable(c.cfg, c.origin) && Reached(c, s)
    ensures Reachable(c.cfg, s)
  {
    hide Reachable, Leads;
    LeadsToReachable(c.cfg, c.origin, s);
  }
}
