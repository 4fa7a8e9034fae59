/** How honest nodes move through the rounds of a sequence: no round is skipped by the cluster. */
module RoundBounds {
  import opened Protocol
  import opened Quorum
  import opened Selector
  import opened NodeSpec
  import opened NodeLaws
  import opened NodeMoves
  import opened NodeRuns
  import opened Cluster
  import opened Agreement

  // ----- the round-change set of one node -----

  /** No stored round change is about a round the node has left behind. */
  ghost predicate KeysCurrent(n: Node) {
    forall k :: k in n.roundChanges ==> k >= n.round
  }

  /** Kept by every step, as long as rounds fit the 64 bits of a key. */
  lemma StepKeepsKeysCurrent(n: Node, ev: Event, o: Oracle)
    requires NodeInv(n) && KeysCurrent(n)
    requires (ev.Deliver? || ev.Replay?) && ev.msg.RoundChangeMsg? ==> ev.msg.view.round < TWO_64
    requires Step(n, ev, o).node.round < TWO_64
    ensures KeysCurrent(Step(n, ev, o).node)
  {
    hide HandleMsg, HandleTimeout;
    match ev {
      case Deliver(m) => if m.from in n.vals { MsgKeepsKeysCurrent(n, m, o); }
      case Replay(m) => MsgKeepsKeysCurrent(n, m, o);
      case Timeout => TimeoutKeepsKeysCurrent(n, o);
      case FinalCommitted =>
      case Request(p) =>
    }
  }

  /** The rounds a run deals with fit the 64 bits of a key. */
  ghost predicate FitsKeys(ns: seq<Node>, steps: seq<(Event, Oracle)>) {
    && (forall k :: 0 <= k < |ns| ==> ns[k].round < TWO_64)
    && forall k :: 0 <= k < |steps| ==>
         ((steps[k].0.Deliver? || steps[k].0.Replay?) && steps[k].0.msg.RoundChangeMsg? ==>
            steps[k].0.msg.view.round < TWO_64)
  }

  /** In every run, stored round changes match their key and the sequence and are not outdated. */
  lemma {:induction false} RunKeepsKeysCurrent(ns: seq<Node>, steps: seq<(Event, Oracle)>, k: nat)
    requires IsNodeRun(ns, steps) && FitsKeys(ns, steps) && k <= |steps|
    requires NodeInv(ns[0]) && KeysCurrent(ns[0])
    ensures Keyed(ns[k].roundChanges, ns[k].vals, ns[k].sequence) && KeysCurrent(ns[k])
  {
    hide Step;
    RunKeepsInv(ns, steps, k);
    if k > 0 {
      RunKeepsInv(ns, steps, k - 1);
      RunKeepsKeysCurrent(ns, steps, k - 1);
      assert ns[k - 1 + 1] == Step(ns[k - 1], steps[k - 1].0, steps[k - 1].1).node;
      StepKeepsKeysCurrent(ns[k - 1], steps[k - 1].0, steps[k - 1].1);
    }
  }

  lemma TimeoutKeepsKeysCurrent(n: Node, o: Oracle)
    requires KeysCurrent(n)
    requires HandleTimeout(n, o).node.round < TWO_64
    ensures KeysCurrent(HandleTimeout(n, o).node)
  {
  }

  lemma MsgKeepsKeysCurrent(n: Node, m: Message, o: Oracle)
    requires NodeInv(n) && KeysCurrent(n)
    requires m.RoundChangeMsg? ==> m.view.round < TWO_64
    requires HandleMsg(n, m, o).node.round < TWO_64
    ensures KeysCurrent(HandleMsg(n, m, o).node)
  {
    hide HandlePrePrepare, HandleCommit, HandleRoundChange;
    match m {
      case PrePrepareMsg(_, _, _) => PrePrepareKeepsKeysCurrent(n, m, o);
      case PrepareMsg(_, _, _) => assert KeysCurrent(HandlePrepare(n, m).node);
      case CommitMsg(_, _, _, _) => CommitKeepsKeysCurrent(n, m, o);
      case RoundChangeMsg(_, _, _) => RoundChangeKeepsKeysCurrent(n, m, o);
      case Malformed(_) =>
    }
  }

  lemma PrePrepareKeepsKeysCurrent(n: Node, m: Message, o: Oracle)
    requires KeysCurrent(n) && m.PrePrepareMsg? && HandlePrePrepare(n, m, o).node.round < TWO_64
    ensures KeysCurrent(HandlePrePrepare(n, m, o).node)
  {
  }

  lemma CommitKeepsKeysCurrent(n: Node, m: Message, o: Oracle)
    requires KeysCurrent(n) && m.CommitMsg? && HandleCommit(n, m, o).node.round < TWO_64
    ensures KeysCurrent(HandleCommit(n, m, o).node)
  {
  }

  lemma RoundChangeKeepsKeysCurrent(n: Node, m: Message, o: Oracle)
    requires NodeInv(n) && KeysCurrent(n) && m.RoundChangeMsg? && m.view.round < TWO_64
    ensures KeysCurrent(HandleRoundChange(n, m, o).node)
  {
    if CheckMessage(m, n.CurrentView(), n.waiting, n.phase) == Ok {
      var a := n.(roundChanges := AddRoundChange(n.roundChanges, n.vals, m));
      assert KeysCurrent(a);
      assert KeysCurrent(StartNewRound(a, m.view.round, o).node);
      assert KeysCurrent(SendRoundChange(a, m.view.round).node);
    }
  }

  /** r is the greatest round that at least `num` distinct members asked this node for, or none. */
  ghost predicate IsGreatestAsked(n: Node, num: nat, r: Option<int>) {
    match r
    case None => forall k :: k in n.roundChanges ==> |n.roundChanges[k].Keys| < num
    case Some(r) =>
      && r >= 0 && r in n.roundChanges && |n.roundChanges[r].Keys| >= num
      && n.roundChanges[r].Keys <= Members(n.vals)
      && (forall v :: v in n.roundChanges[r] ==>
            var m := n.roundChanges[r][v];
            m.RoundChangeMsg? && m.from == v && Low64(m.view.round) == r)
      && (forall k :: k in n.roundChanges && |n.roundChanges[k].Keys| >= num ==> k <= r)
  }

  /**
   * MaxRound reads its key as an int64. It is the greatest round asked for by `num` members
   * if and only if every round asked for by that many fits.
   */
  lemma MaxRoundIsGreatestExactly(n: Node, num: nat)
    requires NodeInv(n)
    ensures IsGreatestAsked(n, num, MaxRound(n.roundChanges, num)) <==>
            forall k: nat :: HasAtLeast(n.roundChanges, num, k) ==> k < TWO_63
  {
    var r := MaxRound(n.roundChanges, num);
    forall k | k in n.roundChanges ensures HasAtLeast(n.roundChanges, num, k) <==> |n.roundChanges[k].Keys| >= num {
      assert |n.roundChanges[k]| == |n.roundChanges[k].Keys|;
    }
    if r.Some? {
      var k: nat :| HasAtLeast(n.roundChanges, num, k) && AsInt64(k) == r.value;
      assert AsInt64(k) < TWO_63;
      assert KeyedSet(n.roundChanges[k], n.vals, n.sequence, k);
      if forall j: nat :: HasAtLeast(n.roundChanges, num, j) ==> j < TWO_63 {
        assert k == r.value;
      }
    }
  }

  // ----- what lets a node skip rounds -----

  /** v sent a ROUND CHANGE of the sequence whose round has key k. */
  ghost predicate Asks(net: set<Message>, v: Id, sequence: nat, k: nat) {
    exists m :: m in net && m.RoundChangeMsg? && m.from == v && m.view.sequence == sequence && Low64(m.view.round) == k
  }

  ghost function Askers(net: set<Message>, vals: seq<Id>, sequence: nat, k: nat): set<Id> {
    set v | v in Members(vals) && Asks(net, v, sequence, k)
  }

  /** Some validator asked for exactly this round. */
  ghost predicate AskedRound(net: set<Message>, round: int) {
    exists m :: m in net && m.RoundChangeMsg? && m.view.round == round
  }

  /** More than f validators asked for the round under key k, and the round is the key or was asked for. */
  ghost predicate CalledFor(net: set<Message>, n: Node, k: nat, round: nat) {
    && |Askers(net, n.vals, n.sequence, k)| > FaultTolerantNum(|n.vals|)
    && k < TWO_64
    && (AsInt64(k) == round || (Low64(round) == k && AskedRound(net, round)))
  }

  lemma HeldAsk(net: set<Message>, n: Node, rcs: map<nat, MessageMap>, k: nat)
    requires AllSetsIn(rcs, net) && Keyed(rcs, n.vals, n.sequence) && k in rcs
    ensures |Askers(net, n.vals, n.sequence, k)| >= |rcs[k]|
  {
    var a := Askers(net, n.vals, n.sequence, k);
    forall v | v in rcs[k] ensures v in a {
      var m := rcs[k][v];
      assert m in net && m.RoundChangeMsg? && m.from == v && m.view.sequence == n.sequence && Low64(m.view.round) == k;
    }
    assert |rcs[k]| == |rcs[k].Keys|;
    SubsetSize(rcs[k].Keys, a);
  }

  /** The node is `round` in the same sequence only after validators called for it. */
  ghost predicate JumpCalled(net: set<Message>, n: Node, n': Node) {
    n'.sequence == n.sequence && n'.round > n.round + 1 ==> exists k :: CalledFor(net, n, k, n'.round)
  }

  lemma RoundChangeJump(n: Node, m: Message, o: Oracle, net: set<Message>)
    requires NodeInv(n) && StoredIn(n, net) && m in net && n.vals != [] && m.RoundChangeMsg?
    ensures JumpCalled(net, n, HandleRoundChange(n, m, o).node)
  {
    hide HandleRoundChange, FaultTolerantNum;
    var n' := HandleRoundChange(n, m, o).node;
    var rcs := AddRoundChange(n.roundChanges, n.vals, m);
    var k := Low64(m.view.round);
    if n'.sequence == n.sequence && n'.round > n.round + 1 {
      JumpNeedsGroup(n, m, o);
      AddRoundChangeKeyed(n.roundChanges, n.vals, n.sequence, m);
      HeldAsk(net, n, rcs, k);
      assert AskedRound(net, n'.round);
      assert CalledFor(net, n, k, n'.round);
    }
  }

  lemma JumpNeedsGroup(n: Node, m: Message, o: Oracle)
    requires m.RoundChangeMsg? && n.vals != []
    requires var n' := HandleRoundChange(n, m, o).node; n'.sequence == n.sequence && n'.round > n.round + 1
    ensures HandleRoundChange(n, m, o).node.round == m.view.round && m.view.sequence == n.sequence
    ensures CheckMessage(m, n.CurrentView(), n.waiting, n.phase) == Ok
    ensures var rcs, k := AddRoundChange(n.roundChanges, n.vals, m), Low64(m.view.round);
            k in rcs && |rcs[k]| > FaultTolerantNum(|n.vals|)
  {
  }

  lemma OtherMsgsGoOneUp(n: Node, m: Message, o: Oracle)
    requires !m.RoundChangeMsg?
    ensures HandleMsg(n, m, o).node.round <= n.round + 1
  {
  }

  lemma TimeoutRound(n: Node, o: Oracle)
    ensures var n' := HandleTimeout(n, o).node;
            var max := MaxRound(n.roundChanges, FaultTolerantNum(|n.vals|) + 1);
            n'.sequence == n.sequence ==>
              n'.round == n.round + 1 || (max.Some? && max.value > n.round && n'.round == max.value)
  {
  }

  lemma TimeoutJump(n: Node, o: Oracle, net: set<Message>)
    requires Keyed(n.roundChanges, n.vals, n.sequence) && AllSetsIn(n.roundChanges, net)
    ensures JumpCalled(net, n, HandleTimeout(n, o).node)
  {
    hide HandleTimeout;
    TimeoutRound(n, o);
    var n' := HandleTimeout(n, o).node;
    var num := FaultTolerantNum(|n.vals|) + 1;
    var max := MaxRound(n.roundChanges, num);
    if n'.sequence == n.sequence && n'.round > n.round + 1 {
      var k :| HasAtLeast(n.roundChanges, num, k) && AsInt64(k) == max.value;
      HeldAsk(net, n, n.roundChanges, k);
      assert CalledFor(net, n, k, n'.round);
    }
  }

  lemma StepJump(n: Node, ev: Event, o: Oracle, net: set<Message>)
    requires NodeInv(n) && StoredIn(n, net) && n.vals != []
    requires ev.Deliver? || ev.Replay? ==> ev.msg in net
    ensures JumpCalled(net, n, Step(n, ev, o).node)
  {
    match ev {
      case Deliver(m) => MsgJump(n, m, o, net);
      case Replay(m) => MsgJump(n, m, o, net);
      case Timeout => TimeoutJump(n, o, net);
      case FinalCommitted =>
      case Request(p) =>
    }
  }

  lemma MsgJump(n: Node, m: Message, o: Oracle, net: set<Message>)
    requires NodeInv(n) && StoredIn(n, net) && m in net && n.vals != []
    ensures JumpCalled(net, n, HandleMsg(n, m, o).node)
  {
    if m.RoundChangeMsg? {
      RoundChangeJump(n, m, o, net);
    } else {
      OtherMsgsGoOneUp(n, m, o);
    }
  }

  // ----- the cluster -----

  /** No ROUND CHANGE sent so far is about a round above the bound. */
  ghost predicate RoundsWithin(s: State, bound: nat) {
    forall m :: m in s.net && m.RoundChangeMsg? ==> m.view.round <= bound
  }

  /** Up to 2^64 the key of a round that honest validators can ask for is the round's own. */
  ghost predicate Narrow(s: State) { RoundsWithin(s, TWO_64) }

  lemma SameKeySameRound(a: nat, b: nat)
    requires 0 < a <= TWO_64 && 0 < b <= TWO_64 && Low64(a) == Low64(b)
    ensures a == b
  {
  }

  lemma HonestAsker(cfg: Config, s: State, n: Node, k: nat, round: nat) returns (m: Message)
    requires CalledFor(s.net, n, k, round) && Narrow(s) && round > 0 && Sound(cfg, s)
    requires n.vals == cfg.valsAt(n.sequence) && FaultBound(cfg, n.sequence)
    ensures m in s.net && m.RoundChangeMsg? && m.from in cfg.honest && m.view == View(n.sequence, round)
  {
    var vals := n.vals;
    var v := HonestMember(Members(vals), cfg.honest, Askers(s.net, vals, n.sequence, k));
    m :| m in s.net && m.RoundChangeMsg? && m.from == v && m.view.sequence == n.sequence && Low64(m.view.round) == k;
    SentOnEntering(cfg, s, m);
    SameKeySameRound(m.view.round, round);
  }

  /**
   * An honest node moves up more than one round only into a round that an honest node has
   * already entered.
   */
  lemma JumpsOnlyToEnteredRounds(cfg: Config, s: State, i: Id, ev: Event, o: Oracle)
    requires Enabled(cfg, s, Act(i, ev, o))
    ensures
      var n, n' := s.nodes[i], Step(s.nodes[i], ev, o).node;
      Reachable(cfg, s) && Narrow(s) && FaultBound(cfg, n.sequence)
      && n'.sequence == n.sequence && n'.round > n.round + 1
      ==> n'.CurrentView() in s.entered
  {
    hide Step, Reachable;
    var n, n' := s.nodes[i], Step(s.nodes[i], ev, o).node;
    if Reachable(cfg, s) && Narrow(s) && FaultBound(cfg, n.sequence)
       && n'.sequence == n.sequence && n'.round > n.round + 1 {
      ReachableIsGrounded(cfg, s);
      StepJump(n, ev, o, s.net);
      var k :| CalledFor(s.net, n, k, n'.round);
      var m := HonestAsker(cfg, s, n, k, n'.round);
      SentOnEntering(cfg, s, m);
    }
  }

  lemma SentOnEntering(cfg: Config, s: State, m: Message)
    requires Sound(cfg, s) && m in s.net && m.RoundChangeMsg? && m.from in cfg.honest
    ensures m.view in s.entered && m.view.round > 0
  {
    assert RoundChangesEntered(s, s.nodes[m.from].id);
  }

  /** The rounds honest nodes have entered at the sequence have no gap. */
  ghost predicate NoGap(s: State, sequence: nat) {
    forall r: nat :: r > 0 && View(sequence, r) in s.entered ==> View(sequence, r - 1) in s.entered
  }

  lemma StepEntersNext(n: Node, ev: Event, o: Oracle)
    requires NodeInv(n)
    ensures var n' := Step(n, ev, o).node;
            n'.round == 0 || (n'.sequence == n.sequence && n'.round >= n.round)
  {
    hide Step;
    StepMoves(n, ev, o);
  }

  lemma WhereNodesStand(cfg: Config, s: State, i: Id)
    requires Reachable(cfg, s) && i in cfg.honest
    ensures i in s.nodes && NodeInv(s.nodes[i]) && s.nodes[i].CurrentView() in s.entered
  {
    ReachableIsGrounded(cfg, s);
    assert Wired(cfg, s, s.nodes[i]);
  }

  /** Only the node that takes the step enters a view. */
  lemma EnteredByActor(cfg: Config, s: State, a: Action, view: View)
    requires Enabled(cfg, s, a) && view in Next(cfg, s, a).entered && view !in s.entered
    ensures a.Act? && view == Step(s.nodes[a.node], a.ev, a.oracle).node.CurrentView()
  {
    hide Step;
  }

  /** The action takes an honest node into a new round whose predecessor no honest node has entered. */
  ghost predicate Skips(cfg: Config, s: State, a: Action, sequence: nat, r: nat) {
    && Reachable(cfg, s) && Enabled(cfg, s, a) && FaultBound(cfg, sequence) && r > 0
    && View(sequence, r) in Next(cfg, s, a).entered && View(sequence, r) !in s.entered
    && View(sequence, r - 1) !in s.entered
  }

  /** A round that no honest node had entered is entered from the round just below it. */
  lemma NewRoundIsNext(cfg: Config, s: State, a: Action, sequence: nat, r: nat)
    ensures Narrow(s) ==> !Skips(cfg, s, a, sequence, r)
  {
    hide Step, Next, Reachable, Narrow, FaultBound;
    if Narrow(s) && Skips(cfg, s, a, sequence, r) {
      EnteredByActor(cfg, s, a, View(sequence, r));
      var i := a.node;
      WhereNodesStand(cfg, s, i);
      StepEntersNext(s.nodes[i], a.ev, a.oracle);
      JumpsOnlyToEnteredRounds(cfg, s, i, a.ev, a.oracle);
    }
  }

  lemma PrefixIsReachable(cfg: Config, ss: seq<State>, acts: seq<Action>, k: nat)
    requires IsRun(cfg, ss, acts) && k <= |acts|
    ensures Reachable(cfg, ss[k])
  {
    hide Next;
    assert IsRun(cfg, ss[..k + 1], acts[..k]);
    assert ss[..k + 1][|acts[..k]|] == ss[k];
  }

  lemma {:induction false} NarrowBefore(cfg: Config, ss: seq<State>, acts: seq<Action>, j: nat, k: nat)
    requires IsRun(cfg, ss, acts) && j <= k <= |acts| && Narrow(ss[k])
    ensures Narrow(ss[j])
    decreases k
  {
    hide Step;
    if j < k {
      assert ss[k - 1 + 1] == Next(cfg, ss[k - 1], acts[k - 1]);
      assert ss[k - 1].net <= ss[k].net;
      NarrowBefore(cfg, ss, acts, j, k - 1);
    }
  }

  lemma {:induction false} RunHasNoGap(cfg: Config, ss: seq<State>, acts: seq<Action>, k: nat, sequence: nat)
    requires IsRun(cfg, ss, acts) && k <= |acts| && Narrow(ss[k]) && FaultBound(cfg, sequence)
    ensures NoGap(ss[k], sequence)
  {
    hide Step;
    if k == 0 {
      BootedAtZero(cfg, ss[0]);
    } else {
      var s, a := ss[k - 1], acts[k - 1];
      assert ss[k - 1 + 1] == Next(cfg, s, a);
      NarrowBefore(cfg, ss, acts, k - 1, k);
      RunHasNoGap(cfg, ss, acts, k - 1, sequence);
      PrefixIsReachable(cfg, ss, acts, k - 1);
      forall r | r > 0 && View(sequence, r) in ss[k].entered ensures View(sequence, r - 1) in ss[k].entered {
        if View(sequence, r) !in s.entered { NewRoundIsNext(cfg, s, a, sequence, r); }
      }
    }
  }

  lemma BootedAtZero(cfg: Config, s: State)
    requires Init(cfg, s)
    ensures forall v :: v in s.entered ==> v.round == 0
  {
    forall i | i in s.nodes ensures s.nodes[i].round == 0 {
      var policy, last :| Booted(cfg, s.nodes[i], i, policy, last);
    }
  }

  /** The highest round honest nodes have entered at the sequence. */
  ghost predicate HighestRound(s: State, sequence: nat, r: nat) {
    View(sequence, r) in s.entered && forall r': nat :: View(sequence, r') in s.entered ==> r' <= r
  }

  /** Honest rounds of a sequence are entered without a gap. */
  lemma RoundsHaveNoGap(cfg: Config, s: State, sequence: nat)
    ensures Reachable(cfg, s) && Narrow(s) && FaultBound(cfg, sequence) ==> NoGap(s, sequence)
  {
    hide Narrow, FaultBound, NoGap, Init, Next, Enabled;
    if Reachable(cfg, s) && Narrow(s) && FaultBound(cfg, sequence) {
      var ss, acts :| IsRun(cfg, ss, acts) && s == ss[|acts|];
      RunHasNoGap(cfg, ss, acts, |acts|, sequence);
    }
  }

  /** Round bound: one step raises the highest honest round of a sequence by at most one. */
  lemma HighestRoundRisesByOne(cfg: Config, s: State, a: Action, sequence: nat, r: nat, r': nat)
    requires Enabled(cfg, s, a)
    ensures
      Reachable(cfg, s) && Narrow(s) && FaultBound(cfg, sequence)
      && HighestRound(s, sequence, r) && HighestRound(Next(cfg, s, a), sequence, r')
      ==> (r' == r || r' == r + 1) && forall x :: 0 <= x <= r ==> View(sequence, x) in s.entered
  {
    hide Step, Reachable;
    if Reachable(cfg, s) && Narrow(s) && FaultBound(cfg, sequence)
       && HighestRound(s, sequence, r) && HighestRound(Next(cfg, s, a), sequence, r') {
      assert s.entered <= Next(cfg, s, a).entered;
      if r' > r { NewRoundIsNext(cfg, s, a, sequence, r'); }
      RoundsHaveNoGap(cfg, s, sequence);
      forall x | 0 <= x <= r ensures View(sequence, x) in s.entered { NoGapBelow(s, sequence, r, x); }
    }
  }

  lemma {:induction false} NoGapBelow(s: State, sequence: nat, r: nat, x: nat)
    requires NoGap(s, sequence) && View(sequence, r) in s.entered && x <= r
    ensures View(sequence, x) in s.entered
    decreases r - x
  {
    if x < r {
      NoGapBelow(s, sequence, r, x + 1);
      assert View(sequence, x + 1 - 1) in s.entered;
    }
  }
}
