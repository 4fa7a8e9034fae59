/** Where the blocks that honest nodes commit come from. */
module Validity {
  import opened Protocol
  import opened NodeSpec
  import opened NodeLaws
  import opened NodeMoves
  import opened NodeRuns
  import opened Cluster
  import opened Agreement

  /**
   * In the step a PRE-PREPARE for the block from the proposer of the view reached node i, whose
   * backend verified the block, and the node accepted it.
   */
  ghost predicate AcceptedIn(s: State, a: Action, s': State, i: Id, view: View, hash: Hash) {
    && a.Act? && a.node == i && i in s.nodes && i in s'.nodes
    && (a.ev.Deliver? || a.ev.Replay?) && a.oracle.verifyOk
    && var m := a.ev.msg;
    && m.PrePrepareMsg? && m in s.net && m.view == view && m.proposal.hash == hash && s.nodes[i].IsProposer(m.from)
    && CanAccept(s.nodes[i]) && s.nodes[i].CurrentView() == view == s'.nodes[i].CurrentView()
    && s'.nodes[i].prePrepare == Some(PrePrepare(view, m.proposal))
  }

  ghost predicate AcceptedAt(ss: seq<State>, acts: seq<Action>, j: nat, i: Id, view: View, hash: Hash) {
    j < |acts| && j + 1 < |ss| && AcceptedIn(ss[j], acts[j], ss[j + 1], i, view, hash)
  }

  /** The node is past its PRE-PREPARE in the view. */
  ghost predicate Holds(n: Node, view: View, hash: Hash) {
    InPhase(n) && n.CurrentView() == view && n.prePrepare.value.proposal.hash == hash
  }

  /** A node gets past its PRE-PREPARE only by accepting one that its backend verified. */
  lemma StepHolds(n: Node, ev: Event, o: Oracle, view: View, hash: Hash)
    requires NodeInv(n) && Holds(Step(n, ev, o).node, view, hash) && !Holds(n, view, hash)
    ensures (ev.Deliver? || ev.Replay?) && o.verifyOk && ev.msg.PrePrepareMsg?
    ensures ev.msg.view == view == n.CurrentView() && ev.msg.proposal.hash == hash && n.IsProposer(ev.msg.from)
    ensures CanAccept(n) && Step(n, ev, o).node.prePrepare == Some(PrePrepare(view, ev.msg.proposal))
  {
    hide HandleMsg, NodeInv;
    MustAccept(n, ev, o, view, hash);
    NeedsMessage(n, ev, o);
    AcceptsVerified(n, ev.msg, o);
  }

  lemma MustAccept(n: Node, ev: Event, o: Oracle, view: View, hash: Hash)
    requires NodeInv(n) && Holds(Step(n, ev, o).node, view, hash) && !Holds(n, view, hash)
    ensures CanAccept(n) && InPhase(Step(n, ev, o).node) && view == n.CurrentView()
  {
    hide Step;
    StepMoves(n, ev, o);
  }

  lemma NeedsMessage(n: Node, ev: Event, o: Oracle)
    requires CanAccept(n) && InPhase(Step(n, ev, o).node)
    ensures ev.Deliver? || ev.Replay?
    ensures Step(n, ev, o) == HandleMsg(n, ev.msg, o)
  {
    hide HandleMsg;
    if ev.Timeout? { TimeoutLeaves(n, o); }
  }

  lemma TimeoutLeaves(n: Node, o: Oracle)
    requires CanAccept(n)
    ensures !InPhase(HandleTimeout(n, o).node)
  {
  }

  lemma AcceptsVerified(n: Node, m: Message, o: Oracle)
    requires CanAccept(n) && InPhase(HandleMsg(n, m, o).node)
    ensures m.PrePrepareMsg? && o.verifyOk && n.IsProposer(m.from) && m.view == n.CurrentView()
    ensures HandleMsg(n, m, o).node.prePrepare == Some(PrePrepare(m.view, m.proposal))
  {
  }

  /** The block a node holds at some point of a run was accepted by it before, in that view. */
  lemma {:induction false} HeldWasAccepted(
    cfg: Config, ss: seq<State>, acts: seq<Action>, k: nat, i: Id, view: View, hash: Hash)
    requires IsRun(cfg, ss, acts) && k <= |acts| && i in cfg.honest && i in ss[k].nodes
    requires Holds(ss[k].nodes[i], view, hash)
    ensures exists j: nat :: j < k && AcceptedAt(ss, acts, j, i, view, hash)
  {
    hide Step, Holds, AcceptedIn, Init, Enabled, Next, History, Wired, LockBacked, DecisionsBacked;
    if k == 0 {
      BootHoldsNothing(cfg, ss[0], i, view, hash);
    } else {
      var s, a := ss[k - 1], acts[k - 1];
      RunIsGrounded(cfg, ss, acts, k - 1);
      assert ss[k - 1 + 1] == Next(cfg, s, a);
      if Holds(s.nodes[i], view, hash) {
        HeldWasAccepted(cfg, ss, acts, k - 1, i, view, hash);
      } else {
        NewlyHeld(cfg, s, a, i, view, hash);
        assert AcceptedAt(ss, acts, k - 1, i, view, hash);
      }
    }
  }

  lemma BootHoldsNothing(cfg: Config, s: State, i: Id, view: View, hash: Hash)
    requires Init(cfg, s) && i in cfg.honest
    ensures !Holds(s.nodes[i], view, hash)
  {
    var policy, last :| Booted(cfg, s.nodes[i], i, policy, last);
  }

  lemma NewlyHeld(cfg: Config, s: State, a: Action, i: Id, view: View, hash: Hash)
    requires Sound(cfg, s) && Enabled(cfg, s, a) && i in cfg.honest
    requires !Holds(s.nodes[i], view, hash) && Holds(Next(cfg, s, a).nodes[i], view, hash)
    ensures AcceptedIn(s, a, Next(cfg, s, a), i, view, hash)
  {
    hide Step;
    assert a.Act? && a.node == i;
    StepHolds(s.nodes[i], a.ev, a.oracle, view, hash);
  }

  /**
   * Validity: whatever an honest node commits, it accepted in that view, from a PRE-PREPARE of the
   * view's proposer and with the consent of its own backend. Nothing is assumed about faults.
   */
  lemma {:induction false} CommitsWereVerified(cfg: Config, ss: seq<State>, acts: seq<Action>, k: nat, d: Decision)
    requires IsRun(cfg, ss, acts) && k <= |acts| && d in ss[k].decisions
    ensures exists j: nat :: j < k && AcceptedAt(ss, acts, j, d.node, d.view, d.digest)
  {
    hide Step, Holds, AcceptedIn;
    if k > 0 {
      var s, a := ss[k - 1], acts[k - 1];
      assert ss[k - 1 + 1] == Next(cfg, s, a);
      if d in s.decisions {
        CommitsWereVerified(cfg, ss, acts, k - 1, d);
      } else {
        RunIsGrounded(cfg, ss, acts, k - 1);
        CommitsWhatItHolds(s.nodes[a.node], a.ev, a.oracle);
        HeldWasAccepted(cfg, ss, acts, k - 1, d.node, d.view, d.digest);
      }
    }
  }

  lemma CommitsWhatItHolds(n: Node, ev: Event, o: Oracle)
    requires NodeInv(n)
    ensures var call := Step(n, ev, o).call; call.Some? ==> Holds(n, call.value.view, call.value.proposal.hash)
  {
    hide Step;
    StepMoves(n, ev, o);
  }

  // ----- one node never commits two blocks without giving up a lock -----

  ghost predicate Took(s: State, a: Decision, i: Id) {
    a in s.decisions && a.accepted && a.node == i
  }

  /** What the backend of a node has taken lies behind the node, and holds it by its lock. */
  ghost predicate TakenSoFar(s: State, n: Node) {
    forall a :: Took(s, a, n.id) ==>
      && a.digest != NIL_HASH
      && a.view.AtMost(n.CurrentView())
      && (a.view == n.CurrentView() ==> !n.waiting && n.phase == Committed)
      && (a.view.sequence == n.sequence && (n.id, n.sequence) !in s.dropped ==> n.locked == a.digest)
  }

  /** One block a view, and without a dropped lock one block a sequence. */
  ghost predicate TookOne(s: State, i: Id) {
    forall a, b :: Took(s, a, i) && Took(s, b, i) ==>
      && (a.view == b.view ==> a.digest == b.digest)
      && (a.view.sequence == b.view.sequence && (i, a.view.sequence) !in s.dropped ==> a.digest == b.digest)
  }

  ghost predicate OwnCommits(cfg: Config, s: State) {
    && (forall a :: a in s.decisions ==> a.node in cfg.honest)
    && (forall i :: i in cfg.honest && i in s.nodes ==> TakenSoFar(s, s.nodes[i]) && TookOne(s, i))
  }

  /** What a step means for the blocks taken by the node's backend. */
  ghost predicate TakingStep(n: Node, e: Effect) {
    && e.node.id == n.id
    && Progress(n).AtMost(Progress(e.node))
    && (e.node.sequence == n.sequence && n.IsLocked() && e.node.IsLocked() ==> e.node.locked == n.locked)
    && (e.node.CurrentView() == n.CurrentView() && !n.waiting && n.phase == Committed ==>
          !e.node.waiting && e.node.phase == Committed)
    && (e.call.Some? && e.call.value.accepted ==>
          && e.call.value.view == n.CurrentView() == e.node.CurrentView()
          && !n.waiting && n.phase != Committed && !e.node.waiting && e.node.phase == Committed
          && e.node.locked == e.call.value.proposal.hash)
  }

  lemma StepTakes(n: Node, ev: Event, o: Oracle)
    requires NodeInv(n)
    ensures TakingStep(n, Step(n, ev, o))
  {
    hide Step;
    StepMoves(n, ev, o);
  }

  lemma TakingStepKeeps(s: State, i: Id, e: Effect)
    requires i in s.nodes && s.nodes[i].id == i && TakingStep(s.nodes[i], e)
    requires TakenSoFar(s, s.nodes[i]) && TookOne(s, i)
    ensures TakenSoFar(Record(s, i, e), e.node) && TookOne(Record(s, i, e), i)
  {
    var n, n', s' := s.nodes[i], e.node, Record(s, i, e);
    forall a | Took(s', a, i)
      ensures a.digest != NIL_HASH && a.view.AtMost(n'.CurrentView())
      ensures a.view == n'.CurrentView() ==> !n'.waiting && n'.phase == Committed
      ensures a.view.sequence == n'.sequence && (i, n'.sequence) !in s'.dropped ==> n'.locked == a.digest
    {
      assert Took(s, a, i) || (e.call.Some? && e.call.value.accepted && a.view == e.call.value.view);
    }
    forall a, b | Took(s', a, i) && Took(s', b, i)
      ensures a.view == b.view ==> a.digest == b.digest
      ensures a.view.sequence == b.view.sequence && (i, a.view.sequence) !in s'.dropped ==> a.digest == b.digest
    {
      assert Took(s, a, i) || (e.call.Some? && e.call.value.accepted && a.view == e.call.value.view);
      assert Took(s, b, i) || (e.call.Some? && e.call.value.accepted && b.view == e.call.value.view);
    }
  }

  lemma NextKeepsOwnCommits(cfg: Config, s: State, a: Action)
    requires Sound(cfg, s) && OwnCommits(cfg, s) && Enabled(cfg, s, a)
    ensures OwnCommits(cfg, Next(cfg, s, a))
  {
    hide Step, NodeInv, TakingStep;
    var s' := Next(cfg, s, a);
    forall i | i in cfg.honest && i in s'.nodes ensures TakenSoFar(s', s'.nodes[i]) && TookOne(s', i) {
      if a.Act? && a.node == i {
        StepTakes(s.nodes[i], a.ev, a.oracle);
        TakingStepKeeps(s, i, Step(s.nodes[i], a.ev, a.oracle));
      } else {
        OthersKeepTaken(cfg, s, a, i);
      }
    }
  }

  lemma OthersKeepTaken(cfg: Config, s: State, a: Action, i: Id)
    requires Sound(cfg, s) && OwnCommits(cfg, s) && Enabled(cfg, s, a) && i in cfg.honest && (a.Act? ==> a.node != i)
    ensures var s' := Next(cfg, s, a); TakenSoFar(s', s'.nodes[i]) && TookOne(s', i)
  {
    hide Step, NodeInv;
    var s' := Next(cfg, s, a);
    assert s'.nodes[i] == s.nodes[i];
    assert forall q :: (i, q) in s'.dropped <==> (i, q) in s.dropped;
    assert forall d :: Took(s', d, i) <==> Took(s, d, i);
  }

  lemma {:induction false} RunOwnsCommits(cfg: Config, ss: seq<State>, acts: seq<Action>, k: nat)
    requires IsRun(cfg, ss, acts) && k <= |acts|
    ensures OwnCommits(cfg, ss[k])
  {
    hide Step, OwnCommits, Sound;
    if k == 0 {
      NothingTakenYet(cfg, ss[0]);
    } else {
      RunIsGrounded(cfg, ss, acts, k - 1);
      RunOwnsCommits(cfg, ss, acts, k - 1);
      NextKeepsOwnCommits(cfg, ss[k - 1], acts[k - 1]);
      assert ss[k - 1 + 1] == ss[k];
    }
  }

  lemma NothingTakenYet(cfg: Config, s: State)
    requires Init(cfg, s)
    ensures OwnCommits(cfg, s)
  {
  }

  /**
   * For any number of faults: the backend of one honest node takes at most one block in a view, and at
   * most one at a sequence at which the node dropped no lock.
   */
  lemma OneBlockTaken(cfg: Config, s: State, a: Decision, b: Decision)
    ensures
      Reachable(cfg, s) && a in s.decisions && b in s.decisions && a.accepted && b.accepted && a.node == b.node ==>
        && a.node in cfg.honest
        && (a.view == b.view ==> a.digest == b.digest)
        && (a.view.sequence == b.view.sequence && (a.node, a.view.sequence) !in s.dropped ==> a.digest == b.digest)
  {
    hide Init, Next, Enabled;
    if Reachable(cfg, s) && a in s.decisions && b in s.decisions && a.accepted && b.accepted && a.node == b.node {
      ReachableIsGrounded(cfg, s);
      var ss, acts :| IsRun(cfg, ss, acts) && s == ss[|acts|];
      RunOwnsCommits(cfg, ss, acts, |acts|);
      assert Took(s, a, a.node) && Took(s, b, a.node);
    }
  }
}
