/**
 * Every step of a node is one of twelve moves. Each move is a flat relation between the state
 * before and after, the message sent and the call made; the laws of runs are proved move by move.
 */
module NodeMoves {
  import opened Protocol
  import opened Quorum
  import opened NodeSpec
  import opened NodeLaws

  ghost predicate Silent(e: Effect) { e.out.None? && e.call.None? }

  ghost predicate SameIdentity(n: Node, n': Node) { n'.id == n.id && n'.policy == n.policy }

  /** A PRE-PREPARE is about the sender's own active view and sequence, and the sender is its proposer. */
  ghost predicate Proposes(n': Node, m: Message) {
    && m.PrePrepareMsg? && m.from == n'.id && m.view == n'.CurrentView() && !n'.waiting && n'.phase == AcceptRequest
    && n'.IsProposer(n'.id) && m.proposal.height == n'.sequence
  }

  /** Nothing changes but the pending request and the collected round changes. */
  ghost predicate Quiet(n: Node, e: Effect) {
    && e.node == n.(pending := e.node.pending, roundChanges := e.node.roundChanges)
    && e.call.None? && (e.out.Some? ==> Proposes(e.node, e.out.value))
  }

  /** The reply to an outdated PRE-PREPARE: a COMMIT about a past view. */
  ghost predicate RepliesOld(n: Node, e: Effect) {
    && e.node == n && e.call.None? && e.out.Some? && e.out.value.CommitMsg?
    && e.out.value.from == n.id && e.out.value.view.Before(n.CurrentView())
  }

  /** A round is entered with empty sets; the accepted block survives only under a lock. */
  ghost predicate FreshRound(n: Node, n': Node) {
    && SameIdentity(n, n') && n'.vals == n.vals && n'.sequence == n.sequence
    && n'.prepares == map[] && n'.commits == map[]
    && n'.prePrepare == (if n'.IsLocked() then n.prePrepare else None)
  }

  /** The node moves to a higher round, waits there and says so. */
  ghost predicate CatchesUp(n: Node, e: Effect) {
    && FreshRound(n, e.node) && e.node.waiting && e.node.round > n.round
    && e.out == Some(RoundChangeMsg(n.id, e.node.CurrentView(), NIL_HASH))
  }

  /** The node becomes active in a round it was not active in; its lock is kept. */
  ghost predicate Activated(n: Node, e: Effect) {
    && FreshRound(n, e.node) && !e.node.waiting && e.node.phase == AcceptRequest && e.node.locked == n.locked
    && (e.node.round > n.round || (e.node.round == n.round && n.waiting))
    && e.call.None? && (e.out.Some? ==> Proposes(e.node, e.out.value))
    && e.node.roundChanges == map[]
  }

  /** The chain moved on: a new sequence from round 0, unlocked and empty. */
  ghost predicate Advances(n: Node, o: Oracle, e: Effect) {
    && SameIdentity(n, e.node) && Silent(e) && o.last.Some? && o.last.value.height >= n.sequence
    && e.node == NewSequence(n, o)
  }

  ghost predicate CanAccept(n: Node) { !n.waiting && n.phase == AcceptRequest }

  ghost predicate AcceptsOpen(n: Node, e: Effect) {
    && CanAccept(n) && !n.IsLocked() && e.node.prePrepare.Some? && e.node.prePrepare.value.view == n.CurrentView()
    && e.node == n.(prePrepare := e.node.prePrepare, phase := PrePrepared)
    && e.out == Some(PrepareMsg(n.id, n.CurrentView(), e.node.prePrepare.value.proposal.hash)) && e.call.None?
  }

  ghost predicate AcceptsLocked(n: Node, e: Effect) {
    && CanAccept(n) && n.IsLocked() && e.node.prePrepare.Some? && e.node.prePrepare.value.view == n.CurrentView()
    && e.node.prePrepare.value.proposal.hash == n.locked
    && e.node == n.(prePrepare := e.node.prePrepare, phase := Prepared)
    && e.out == Some(CommitMsg(n.id, n.CurrentView(), n.locked, Some(Seal(n.id, n.locked)))) && e.call.None?
  }

  ghost predicate InPhase(n: Node) { !n.waiting && n.phase != AcceptRequest && n.prePrepare.Some? }

  /** A PREPARE or a COMMIT is stored and nothing follows from it. */
  ghost predicate Records(n: Node, e: Effect) {
    InPhase(n) && Silent(e) && e.node == n.(prepares := e.node.prepares, commits := e.node.commits)
  }

  ghost predicate Prepares(n: Node, e: Effect) {
    && InPhase(n) && n.phase == PrePrepared && !n.IsLocked()
    && var hash := n.prePrepare.value.proposal.hash;
    && e.node == n.(prepares := e.node.prepares, phase := Prepared, locked := hash)
    && e.node.Reaches(PrepareOrCommitSize(e.node))
    && e.out == Some(CommitMsg(n.id, n.CurrentView(), hash, Some(Seal(n.id, hash)))) && e.call.None?
  }

  /** The commit threshold is met before this step: the block goes to the backend. */
  ghost predicate CallsCommit(n: Node, e: Effect) {
    && InPhase(n) && n.phase != Committed && e.call.Some?
    && e.call.value.view == n.CurrentView() && e.call.value.proposal == n.prePrepare.value.proposal
    && ReachThreshold(|n.vals|, |e.call.value.commits|)
  }

  ghost predicate CommitsDone(n: Node, e: Effect) {
    && CallsCommit(n, e) && e.out.None?
    && e.node == n.(commits := e.call.value.commits, phase := Committed, locked := n.prePrepare.value.proposal.hash)
  }

  ghost predicate CommitsRefused(n: Node, e: Effect) {
    CallsCommit(n, e) && CatchesUp(n, e) && e.node.round == n.round + 1 && !e.node.IsLocked()
  }

  /** On a timeout the lock is given up and the node moves on. */
  ghost predicate TimesOut(n: Node, o: Oracle, e: Effect) {
    (CatchesUp(n, e) && e.call.None? && !e.node.IsLocked()) || Advances(n, o, e)
  }

  /** The moves on any other event; only a refused commit gives up a lock. */
  ghost predicate Reacts(n: Node, o: Oracle, e: Effect) {
    || Quiet(n, e)
    || RepliesOld(n, e)
    || (CatchesUp(n, e) && e.call.None? && e.node.locked == n.locked)
    || Activated(n, e)
    || Advances(n, o, e)
    || AcceptsOpen(n, e)
    || AcceptsLocked(n, e)
    || Records(n, e)
    || Prepares(n, e)
    || (CommitsDone(n, e) && o.commitOk && e.call.value.accepted)
    || (CommitsRefused(n, e) && !o.commitOk && !e.call.value.accepted)
  }

  ghost predicate Moves(n: Node, ev: Event, o: Oracle, e: Effect) {
    if ev.Timeout? then TimesOut(n, o, e) else Reacts(n, o, e)
  }

  lemma StartNewRoundMoves(n: Node, n0: Node, round: nat, o: Oracle)
    requires n == n0.(pending := n.pending, roundChanges := n.roundChanges)
    requires n.waiting || round > n.round || round == 0
    ensures var e := StartNewRound(n, round, o); Quiet(n0, e) || Activated(n0, e) || Advances(n0, o, e)
  {
  }

  lemma SendRoundChangeMoves(n: Node, round: nat)
    requires n.round < round
    ensures var e := SendRoundChange(n, round); CatchesUp(n, e) && e.node.locked == n.locked && e.call.None?
    ensures SendRoundChange(n, round).node.pending == n.pending
  {
  }

  lemma PrePrepareMoves(n: Node, m: Message, o: Oracle)
    requires NodeInv(n) && m.PrePrepareMsg?
    ensures Reacts(n, o, HandlePrePrepare(n, m, o))
  {
    SendRoundChangeMoves(n, n.round + 1);
  }

  lemma PrepareMoves(n: Node, m: Message, o: Oracle)
    requires NodeInv(n) && m.PrepareMsg?
    ensures Reacts(n, o, HandlePrepare(n, m))
  {
    var e := HandlePrepare(n, m);
    if CheckMessage(m, n.CurrentView(), n.waiting, n.phase) == Ok && MatchesSubject(n, m.view, m.digest) {
      assert if e.out.Some? then Prepares(n, e) else Records(n, e);
    }
  }

  lemma CommitMoves(n: Node, m: Message, o: Oracle)
    requires NodeInv(n) && m.CommitMsg?
    ensures Reacts(n, o, HandleCommit(n, m, o))
  {
    var e := HandleCommit(n, m, o);
    if CheckMessage(m, n.CurrentView(), n.waiting, n.phase) == Ok && MatchesSubject(n, m.view, m.digest) {
      if e.call.None? {
        assert Records(n, e);
      } else if o.commitOk {
        assert CommitsDone(n, e);
      } else {
        assert CommitsRefused(n, e);
      }
    }
  }

  lemma RoundChangeMoves(n: Node, m: Message, o: Oracle)
    requires NodeInv(n) && m.RoundChangeMsg?
    ensures Reacts(n, o, HandleRoundChange(n, m, o))
  {
    var a := n.(roundChanges := AddRoundChange(n.roundChanges, n.vals, m));
    if n.waiting || m.view.round > n.round { StartNewRoundMoves(a, n, m.view.round, o); }
    if n.round < m.view.round { SendRoundChangeMoves(a, m.view.round); }
  }

  lemma MoveOnMoves(n: Node, o: Oracle)
    ensures TimesOut(n, o, MoveOn(Released(n), o))
  {
    var u := Released(n);
    if o.last.Some? && o.last.value.height >= n.sequence {
      assert Advances(n, o, StartNewRound(u, 0, o));
    } else {
      SendRoundChangeMoves(u, u.round + 1);
    }
  }

  lemma TimeoutMoves(n: Node, o: Oracle)
    ensures TimesOut(n, o, HandleTimeout(n, o))
  {
    hide MoveOn, SendRoundChange;
    var u := Released(n);
    var max := MaxRound(u.roundChanges, FaultTolerantNum(|u.vals|) + 1);
    if max.Some? && max.value > n.round { SendRoundChangeMoves(u, max.value); }
    MoveOnMoves(n, o);
  }

  lemma StepMoves(n: Node, ev: Event, o: Oracle)
    requires NodeInv(n)
    ensures Moves(n, ev, o, Step(n, ev, o))
  {
    match ev {
      case Deliver(m) => MsgMoves(n, m, o);
      case Replay(m) => MsgMoves(n, m, o);
      case Timeout => TimeoutMoves(n, o);
      case FinalCommitted => StartNewRoundMoves(n, n, 0, o);
      case Request(p) =>
    }
  }

  lemma MsgMoves(n: Node, m: Message, o: Oracle)
    requires NodeInv(n)
    ensures Reacts(n, o, HandleMsg(n, m, o))
  {
    match m {
      case PrePrepareMsg(_, _, _) => PrePrepareMoves(n, m, o);
      case PrepareMsg(_, _, _) => PrepareMoves(n, m, o);
      case CommitMsg(_, _, _, _) => CommitMoves(n, m, o);
      case RoundChangeMsg(_, _, _) => RoundChangeMoves(n, m, o);
      case Malformed(_) =>
    }
  }
}
