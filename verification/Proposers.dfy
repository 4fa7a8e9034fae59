/** Honest nodes of one view have one proposer, wherever they started and however they came there. */
module Proposers {
  import opened Protocol
  import opened Selector
  import opened NodeSpec
  import opened NodeLaws
  import opened Cluster
  import opened Agreement
  import opened Responses

  /** The proposer of the block at each height. */
  type Chain = nat -> Id

  /** The backend of every honest node tells of the one chain, and all of them follow one policy. */
  ghost predicate OnChain(cfg: Config, ss: seq<State>, acts: seq<Action>, policy: Policy, chain: Chain)
    requires |ss| > 0
  {
    && (forall i :: i in cfg.honest && i in ss[0].nodes ==> BootedOn(cfg, ss[0].nodes[i], i, policy, chain))
    && forall k :: 0 <= k < |acts| && acts[k].Act? ==> TellsOf(acts[k].oracle, chain)
  }

  ghost predicate BootedOn(cfg: Config, n: Node, i: Id, policy: Policy, chain: Chain) {
    exists h :: Booted(cfg, n, i, policy, Last(h, chain(h)))
  }

  ghost predicate TellsOf(o: Oracle, chain: Chain) {
    o.last.Some? ==> o.last.value.proposer == chain(o.last.value.height)
  }

  /** An active node's proposer is the one its view has by position, after the proposer of the block below. */
  ghost predicate FollowsChain(n: Node, policy: Policy, chain: Chain) {
    && n.policy == policy && n.sequence >= 1
    && (!n.waiting && Low64(n.round) + |n.vals| < TWO_64 ==>
          ProposesByPosition(policy, n.vals, chain(n.sequence - 1), Low64(n.round), n.proposer))
  }

  lemma StepFollowsChain(n: Node, ev: Event, o: Oracle, policy: Policy, chain: Chain)
    requires NodeInv(n) && FollowsChain(n, policy, chain) && TellsOf(o, chain)
    ensures FollowsChain(Step(n, ev, o).node, policy, chain)
  {
    hide Step, NodeInv, LearnsOfBlock, RoundCalled, ProposesByPosition, Repeats;
    AdvancesExactly(n, ev, o);
    BeginsRoundExactly(n, ev, o);
    if LearnsOfBlock(n, ev, o) {
      LearnsOfNewBlock(n, ev, o);
    } else if RoundCalled(n, ev, o) {
      CalledAtOwnHeight(n, ev, o);
    } else {
      KeepsProposer(n, ev, o);
    }
  }

  lemma LearnsOfNewBlock(n: Node, ev: Event, o: Oracle)
    requires LearnsOfBlock(n, ev, o)
    ensures o.last.Some?
  {
  }

  lemma CalledAtOwnHeight(n: Node, ev: Event, o: Oracle)
    requires RoundCalled(n, ev, o)
    ensures o.last.Some? && o.last.value.height == n.sequence - 1 && !LearnsOfBlock(n, ev, o)
  {
  }

  lemma {:induction false} RunFollowsChain(
    cfg: Config, ss: seq<State>, acts: seq<Action>, policy: Policy, chain: Chain, k: nat, i: Id)
    requires IsRun(cfg, ss, acts) && OnChain(cfg, ss, acts, policy, chain) && k <= |acts| && i in cfg.honest
    ensures i in ss[k].nodes && FollowsChain(ss[k].nodes[i], policy, chain)
  {
    hide Step, FollowsChain, TellsOf, History, Wired, LockBacked, DecisionsBacked;
    RunIsGrounded(cfg, ss, acts, k);
    if k == 0 {
      BootFollowsChain(cfg, ss[0].nodes[i], i, policy, chain);
    } else {
      var s, a := ss[k - 1], acts[k - 1];
      RunFollowsChain(cfg, ss, acts, policy, chain, k - 1, i);
      assert ss[k - 1 + 1] == Next(cfg, s, a);
      if a.Act? && a.node == i {
        RunNodeIsSound(cfg, ss, acts, k - 1, i);
        StepFollowsChain(s.nodes[i], a.ev, a.oracle, policy, chain);
      }
    }
  }

  lemma RunNodeIsSound(cfg: Config, ss: seq<State>, acts: seq<Action>, k: nat, i: Id)
    requires IsRun(cfg, ss, acts) && k <= |acts| && i in cfg.honest
    ensures i in ss[k].nodes && NodeInv(ss[k].nodes[i]) && ss[k].nodes[i].vals == cfg.valsAt(ss[k].nodes[i].sequence)
  {
    hide Init, Next, Enabled;
    RunIsGrounded(cfg, ss, acts, k);
    assert Wired(cfg, ss[k], ss[k].nodes[i]);
  }

  lemma BootFollowsChain(cfg: Config, n: Node, i: Id, policy: Policy, chain: Chain)
    requires BootedOn(cfg, n, i, policy, chain)
    ensures FollowsChain(n, policy, chain)
  {
    hide Pick, ProposesByPosition;
    var h :| Booted(cfg, n, i, policy, Last(h, chain(h)));
    if |n.vals| < TWO_64 { PickIsByPosition(policy, n.vals, chain(h), 0); }
  }

  /**
   * Over every run on one chain, two honest nodes that are active in one view have one proposer: in
   * round 0 the one by position after the proposer of the block below, in round r the r-th after it.
   */
  lemma OneProposerPerView(
    cfg: Config, ss: seq<State>, acts: seq<Action>, policy: Policy, chain: Chain, j: nat, k: nat, a: Id, b: Id)
    requires IsRun(cfg, ss, acts) && OnChain(cfg, ss, acts, policy, chain) && j <= |acts| && k <= |acts|
    requires a in cfg.honest && b in cfg.honest && a in ss[j].nodes && b in ss[k].nodes
    ensures var m, n := ss[j].nodes[a], ss[k].nodes[b];
            !m.waiting && !n.waiting && m.CurrentView() == n.CurrentView()
            && Low64(n.round) + |cfg.valsAt(n.sequence)| < TWO_64 ==>
              && m.proposer == n.proposer && n.sequence >= 1
              && ProposesByPosition(policy, cfg.valsAt(n.sequence), chain(n.sequence - 1), Low64(n.round), n.proposer)
  {
    hide Step, Init, Next, Enabled, OnChain, ProposesByPosition, NodeInv;
    RunFollowsChain(cfg, ss, acts, policy, chain, j, a);
    RunFollowsChain(cfg, ss, acts, policy, chain, k, b);
    RunNodeIsSound(cfg, ss, acts, j, a);
    RunNodeIsSound(cfg, ss, acts, k, b);
    var m, n := ss[j].nodes[a], ss[k].nodes[b];
    if !m.waiting && !n.waiting && m.CurrentView() == n.CurrentView() && Low64(n.round) + |n.vals| < TWO_64 {
      PositionDecides(policy, n.vals, chain(n.sequence - 1), Low64(n.round), m.proposer, n.proposer);
    }
  }
}
