/**
 * Runs in which no lock is given up: a locked quorum commits its block when it is proposed again, and
 * waiting nodes follow a call for a later round without a timeout.
 */
module LockRuns {
  import opened Protocol
  import opened Quorum
  import opened Selector
  import opened NodeSpec
  import opened NodeLaws
  import opened Cluster
  import opened Agreement
  import opened Scenes
  import Responses

  // ----- a locked quorum commits -----

  /** A node that has begun the round locked on the block. */
  ghost predicate LockedReady(c: Scene, n: Node, i: Id, round: nat, p: Proposal) {
    && n.id == i && n.vals == c.Vals() && n.proposer == c.Proposer(round) && n.CurrentView() == c.At(round)
    && !n.waiting && n.phase == AcceptRequest && n.locked == p.hash && n.commits == map[]
  }

  /** It commits to the block again when the block is proposed. */
  ghost function Repeated(n: Node, p: Proposal): Node {
    n.(prePrepare := Some(PrePrepare(n.CurrentView(), p)), phase := Prepared)
  }

  lemma RepeatStep(c: Scene, n: Node, i: Id, round: nat, p: Proposal)
    requires c.Sane() && LockedReady(c, n, i, round, p)
    ensures c.Proposer(round).Some?
    ensures Step(n, Deliver(PrePrepareMsg(c.Proposer(round).value, c.At(round), p)), c.Says())
            == Effect(Repeated(n, p), Some(CommitOf(i, c.At(round), p)), None, Ok)
    ensures CanCommit(c, Repeated(n, p), i, round, p)
  {
  }

  lemma Repeats(c: Scene, s: State, i: Id, round: nat, p: Proposal) returns (s': State)
    requires Reached(c, s) && c.Sane() && i in c.cfg.honest && i in s.nodes && LockedReady(c, s.nodes[i], i, round, p)
    requires c.Proposer(round).Some? && PrePrepareMsg(c.Proposer(round).value, c.At(round), p) in s.net
    ensures Onward(c, s, s', {i}) && CanCommit(c, s'.nodes[i], i, round, p)
    ensures CommitOf(i, c.At(round), p) in s'.net
  {
    hide Step, Reached, Pick;
    var m := PrePrepareMsg(c.Proposer(round).value, c.At(round), p);
    RepeatStep(c, s.nodes[i], i, round, p);
    s' := Take(c, s, i, Deliver(m), Step(s.nodes[i], Deliver(m), c.Says()));
  }

  lemma {:induction false} GroupRepeats(c: Scene, s: State, g: set<Id>, round: nat, p: Proposal) returns (s': State)
    requires Reached(c, s) && c.Sane() && g <= c.cfg.honest && g <= s.nodes.Keys
    requires forall i :: i in g ==> LockedReady(c, s.nodes[i], i, round, p)
    requires c.Proposer(round).Some? && PrePrepareMsg(c.Proposer(round).value, c.At(round), p) in s.net
    ensures Onward(c, s, s', g)
    ensures forall i :: i in g ==> CanCommit(c, s'.nodes[i], i, round, p) && CommitOf(i, c.At(round), p) in s'.net
    decreases g
  {
    hide Reached, Pick, LockedReady, CanCommit, CommitOf;
    if g == {} {
      s' := s;
      Standing(c, s);
    } else {
      var i :| i in g;
      var t := Repeats(c, s, i, round, p);
      s' := GroupRepeats(c, t, g - {i}, round, p);
      Further(c, s, t, s', {i}, g - {i});
      assert {i} + (g - {i}) == g;
    }
  }

  /**
   * Locked nodes that make up a quorum, with faulty validators whose COMMITs are there, commit their
   * block once the proposer of a round they begin repeats it: without PREPAREs, and with no lock dropped.
   */
  lemma LockedQuorumCommits(c: Scene, s: State, g: set<Id>, round: nat, p: Proposal, q: set<Id>, x: Id)
    returns (s': State)
    requires Reached(c, s) && c.Sane() && c.IsQuorum(q) && q * c.cfg.honest <= g
    requires g <= c.cfg.honest && g <= s.nodes.Keys && x in g
    requires forall i :: i in g ==> LockedReady(c, s.nodes[i], i, round, p)
    requires c.Proposer(round).Some? && PrePrepareMsg(c.Proposer(round).value, c.At(round), p) in s.net
    requires forall v :: v in q - c.cfg.honest ==> CommitOf(v, c.At(round), p) in s.net
    ensures Onward(c, s, s', g) && s'.dropped == s.dropped
    ensures Decision(x, c.At(round), p.hash, true) in s'.decisions
  {
    hide Reached, Pick, LockedReady, CanCommit, CommitOf, Collected;
    var t := GroupRepeats(c, s, g, round, p);
    forall v | v in q ensures CommitOf(v, c.At(round), p) in t.net {
      if v in c.cfg.honest { assert v in q * c.cfg.honest; } else { assert v in q - c.cfg.honest; }
    }
    s' := Commits(c, t, x, round, p, q);
    Further(c, s, t, s', g, {x});
    assert g + {x} == g;
  }

  // ----- waiting nodes follow a call -----

  /** Who has asked the node for the round, by its key. */
  ghost function AskedFor(n: Node, round: nat): set<Id> {
    if Low64(round) in n.roundChanges then n.roundChanges[Low64(round)].Keys else {}
  }

  /** A waiting node of the scene's height that at most f validators have asked for the later round. */
  ghost predicate WaitsBelow(c: Scene, n: Node, i: Id, round: nat) {
    && n.id == i && n.vals == c.Vals() && n.sequence == c.height + 1 && n.waiting && n.round < round
    && |AskedFor(n, round)| <= FaultTolerantNum(|n.vals|)
  }

  /** The node is in the round: it waits there and has asked for it, or it is active. */
  ghost predicate Arrived(c: Scene, s: State, i: Id, round: nat)
    requires i in s.nodes
  {
    var n := s.nodes[i];
    n.CurrentView() == c.At(round) && (n.waiting ==> AskOf(i, c.At(round)) in s.net)
  }

  /** One more validator asks for the round: the node goes there, or waits with one more held. */
  lemma CallStep(c: Scene, n: Node, i: Id, round: nat, v: Id)
    requires c.Sane() && NodeInv(n) && WaitsBelow(c, n, i, round) && v in c.Vals() && v !in AskedFor(n, round)
    ensures var e := Step(n, Deliver(AskOf(v, c.At(round))), c.Says());
            && (n.IsLocked() ==> e.node.IsLocked()) && e.call.None? && RepliesOf(n, e.out) == {}
            && ((e.node.CurrentView() == c.At(round) && (e.node.waiting ==> e.out == Some(AskOf(i, c.At(round)))))
                || (WaitsBelow(c, e.node, i, round) && AskedFor(e.node, round) == AskedFor(n, round) + {v}))
  {
    hide Step, NodeInv, Responses.AnswersAsk;
    var m := AskOf(v, c.At(round));
    Responses.MemberIsAnswered(n, m, c.Says());
    CallAnswer(c, n, i, round, v, Step(n, Deliver(m), c.Says()));
  }

  lemma CallAnswer(c: Scene, n: Node, i: Id, round: nat, v: Id, e: Effect)
    requires WaitsBelow(c, n, i, round) && v in c.Vals() && v !in AskedFor(n, round) && e.call.None?
    requires Responses.AnswersAsk(n, AskOf(v, c.At(round)), c.Says(), e)
    ensures (n.IsLocked() ==> e.node.IsLocked()) && RepliesOf(n, e.out) == {}
    ensures (e.node.CurrentView() == c.At(round) && (e.node.waiting ==> e.out == Some(AskOf(i, c.At(round)))))
            || (WaitsBelow(c, e.node, i, round) && AskedFor(e.node, round) == AskedFor(n, round) + {v})
  {
    hide ReachThreshold, FaultTolerantNum, Responses.ProposesByPosition, Responses.AddsAndKeeps, Responses.Adds;
    var m := AskOf(v, c.At(round));
    assert Responses.Callers(n, m) == AskedFor(n, round) + {v};
    assert |AskedFor(n, round) + {v}| == |AskedFor(n, round)| + 1;
    if Responses.Adds(n.roundChanges, e.node.roundChanges, n.vals, m) {
      AddsOneCaller(n, e.node, m, round);
    }
  }

  lemma AddsOneCaller(n: Node, n': Node, m: Message, round: nat)
    requires m.RoundChangeMsg? && m.view.round == round && m.from in n.vals && n'.vals == n.vals
    requires Responses.Adds(n.roundChanges, n'.roundChanges, n.vals, m)
    ensures AskedFor(n', round) == AskedFor(n, round) + {m.from}
  {
  }

  lemma CallOnce(c: Scene, s: State, i: Id, round: nat, v: Id) returns (s': State)
    requires Reachable(c.cfg, c.origin) && Reached(c, s) && c.Sane() && i in c.cfg.honest && i in s.nodes
    requires WaitsBelow(c, s.nodes[i], i, round) && v in c.Vals() && v !in AskedFor(s.nodes[i], round)
    requires AskOf(v, c.At(round)) in s.net
    ensures Onward(c, s, s', {i})
    ensures Arrived(c, s', i, round)
            || (&& WaitsBelow(c, s'.nodes[i], i, round)
                && AskedFor(s'.nodes[i], round) == AskedFor(s.nodes[i], round) + {v})
  {
    hide Step, Reached, Reachable, Pick, WaitsBelow, AskedFor, NodeInv;
    var m := AskOf(v, c.At(round));
    SoundHere(c, s, i);
    CallStep(c, s.nodes[i], i, round, v);
    s' := Take(c, s, i, Deliver(m), Step(s.nodes[i], Deliver(m), c.Says()));
  }

  lemma SoundHere(c: Scene, s: State, i: Id)
    requires Reachable(c.cfg, c.origin) && Reached(c, s) && i in c.cfg.honest && i in s.nodes
    ensures NodeInv(s.nodes[i])
  {
    hide Reachable, Reached;
    ReachedIsReachable(c, s);
    ReachableIsGrounded(c.cfg, s);
    assert Wired(c.cfg, s, s.nodes[i]);
  }

  lemma SomeoneElse(a: set<Id>, held: set<Id>) returns (v: Id)
    requires |a| > |held|
    ensures v in a && v !in held
  {
    if a - held == {} {
      assert a <= held by { forall w | w in a ensures w in held { assert w !in a - held; } }
      SubsetSize(a, held);
    }
    v :| v in a - held;
  }

  /** A waiting node hears f + 1 validators until it is in the round they ask for. */
  lemma {:induction false} Follows(c: Scene, s: State, i: Id, round: nat, a: set<Id>) returns (s': State)
    requires Reachable(c.cfg, c.origin) && Reached(c, s) && c.Sane() && i in c.cfg.honest && i in s.nodes
    requires WaitsBelow(c, s.nodes[i], i, round)
    requires a <= Members(c.Vals()) && |a| == FaultTolerantNum(|c.Vals()|) + 1
    requires forall v :: v in a ==> AskOf(v, c.At(round)) in s.net
    ensures Onward(c, s, s', {i}) && Arrived(c, s', i, round)
    decreases |a| - |AskedFor(s.nodes[i], round)|
  {
    hide Reached, Reachable, AskedFor, FaultTolerantNum, AskOf;
    var n := s.nodes[i];
    var v := SomeoneElse(a, AskedFor(n, round));
    assert v in c.Vals() by { assert v in Members(c.Vals()); }
    s' := CallOnce(c, s, i, round, v);
    if !Arrived(c, s', i, round) {
      var t := s';
      assert |AskedFor(n, round) + {v}| == |AskedFor(n, round)| + 1;
      s' := Follows(c, t, i, round, a);
      Further(c, s, t, s', {i}, {i});
    }
  }

  /**
   * Waiting nodes below a round that f + 1 validators have asked for have a run into it on messages
   * alone: no timeout, and so no lock dropped.
   */
  lemma {:induction false} GroupFollows(c: Scene, s: State, g: set<Id>, round: nat, a: set<Id>) returns (s': State)
    requires Reachable(c.cfg, c.origin) && Reached(c, s) && c.Sane() && g <= c.cfg.honest && g <= s.nodes.Keys
    requires forall i :: i in g ==> WaitsBelow(c, s.nodes[i], i, round)
    requires a <= Members(c.Vals()) && |a| == FaultTolerantNum(|c.Vals()|) + 1
    requires forall v :: v in a ==> AskOf(v, c.At(round)) in s.net
    ensures Onward(c, s, s', g) && s'.dropped == s.dropped
    ensures forall i :: i in g ==> Arrived(c, s', i, round)
    decreases g
  {
    hide Reached, Reachable, WaitsBelow, FaultTolerantNum, AskOf;
    if g == {} {
      s' := s;
      Standing(c, s);
    } else {
      var i :| i in g;
      var t := Follows(c, s, i, round, a);
      s' := GroupFollows(c, t, g - {i}, round, a);
      Further(c, s, t, s', {i}, g - {i});
      assert {i} + (g - {i}) == g;
    }
  }
}
