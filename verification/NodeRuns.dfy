/** Laws of one node over any run: progress, milestones, locks, and what its messages prove. */
module NodeRuns {
  import opened Protocol
  import opened Selector
  import opened NodeSpec
  import opened NodeLaws
  import opened NodeMoves

  // ----- progress -----

  /** A point of a node's life: a view and how far the node is inside it. */
  datatype Mark = Mark(view: View, rank: nat) {
    ghost predicate Before(y: Mark) {
      view.Before(y.view) || (view == y.view && rank < y.rank)
    }
    ghost predicate AtMost(y: Mark) {
      this == y || Before(y)
    }
  }

  /** A waiting node has not begun its view; an active one is as far as its phase. */
  ghost function Progress(n: Node): Mark {
    Mark(n.CurrentView(), if n.waiting then 0 else 1 + n.phase.Rank())
  }

  lemma MarkTransitive(a: Mark, b: Mark, c: Mark)
    requires a.AtMost(b) && b.AtMost(c)
    ensures a.AtMost(c)
  {
  }

  /** Every step leaves (sequence, round, phase) unchanged or greater. */
  lemma StepIsMonotone(n: Node, ev: Event, o: Oracle)
    requires NodeInv(n)
    ensures Progress(n).AtMost(Progress(Step(n, ev, o).node))
  {
    hide Step;
    StepMoves(n, ev, o);
  }

  /** The step takes the node from before the mark to the mark or past it. */
  ghost predicate Crosses(n: Node, n': Node, mark: Mark) {
    Progress(n).Before(mark) && mark.AtMost(Progress(n'))
  }

  /** The step makes the node active in a view it was not active in. */
  ghost predicate Activates(n: Node, n': Node) {
    !n'.waiting && (n.waiting || n.CurrentView() != n'.CurrentView())
  }

  /** The step accepts a PRE-PREPARE: the active node takes another block as its proposal. */
  ghost predicate Accepts(n: Node, n': Node) {
    !n'.waiting && n'.phase != AcceptRequest && (n.phase == AcceptRequest || n.waiting || n.prePrepare != n'.prePrepare)
  }

  /** What a step does for the first time in a view is a crossing of that view's marks. */
  ghost predicate Milestones(n: Node, n': Node, call: Option<CommitCall>) {
    && (Activates(n, n') ==> Crosses(n, n', Mark(n'.CurrentView(), 1)))
    && (Accepts(n, n') ==> Crosses(n, n', Mark(n'.CurrentView(), 2)))
    && (call.Some? ==> Crosses(n, n', Mark(call.value.view, 4)))
  }

  lemma StepMilestones(n: Node, ev: Event, o: Oracle)
    requires NodeInv(n)
    ensures Milestones(n, Step(n, ev, o).node, Step(n, ev, o).call)
  {
    hide Step;
    StepMoves(n, ev, o);
  }

  /** The states ns of a run that takes the given steps. */
  ghost predicate IsNodeRun(ns: seq<Node>, steps: seq<(Event, Oracle)>) {
    && |ns| == |steps| + 1
    && forall k :: 0 <= k < |steps| ==> ns[k + 1] == Step(ns[k], steps[k].0, steps[k].1).node
  }

  lemma {:induction false} RunKeepsInv(ns: seq<Node>, steps: seq<(Event, Oracle)>, k: nat)
    requires IsNodeRun(ns, steps) && NodeInv(ns[0]) && k <= |steps|
    ensures NodeInv(ns[k])
  {
    hide Step;
    if k > 0 {
      RunKeepsInv(ns, steps, k - 1);
      StepKeepsInv(ns[k - 1], steps[k - 1].0, steps[k - 1].1);
      assert ns[k - 1 + 1] == ns[k];
    }
  }

  ghost predicate Rising(ns: seq<Node>) {
    forall k :: 0 <= k < |ns| - 1 ==> Progress(ns[k]).AtMost(Progress(ns[k + 1]))
  }

  lemma RunIsRising(ns: seq<Node>, steps: seq<(Event, Oracle)>)
    requires IsNodeRun(ns, steps) && NodeInv(ns[0])
    ensures Rising(ns)
  {
    hide Step;
    forall k | 0 <= k < |ns| - 1 ensures Progress(ns[k]).AtMost(Progress(ns[k + 1])) {
      RunKeepsInv(ns, steps, k);
      StepIsMonotone(ns[k], steps[k].0, steps[k].1);
    }
  }

  lemma {:induction false} RisingIsMonotone(ns: seq<Node>, j: nat, k: nat)
    requires Rising(ns) && j <= k < |ns|
    ensures Progress(ns[j]).AtMost(Progress(ns[k]))
    decreases k
  {
    if j < k {
      RisingIsMonotone(ns, j, k - 1);
      assert Progress(ns[k - 1]).AtMost(Progress(ns[k - 1 + 1]));
      MarkTransitive(Progress(ns[j]), Progress(ns[k - 1]), Progress(ns[k]));
    }
  }

  /** No mark is crossed twice in a run. */
  lemma CrossesOnce(ns: seq<Node>, j: nat, k: nat, mark: Mark)
    requires Rising(ns) && j < k < |ns| - 1
    requires Crosses(ns[j], ns[j + 1], mark)
    ensures !Crosses(ns[k], ns[k + 1], mark)
  {
    RisingIsMonotone(ns, j + 1, k);
    MarkTransitive(mark, Progress(ns[j + 1]), Progress(ns[k]));
  }

  /** In any run from a sound node, each view is activated, accepted in and committed in at most once. */
  lemma OncePerView(ns: seq<Node>, steps: seq<(Event, Oracle)>, j: nat, k: nat)
    requires IsNodeRun(ns, steps) && NodeInv(ns[0]) && j < k < |steps|
    ensures Activates(ns[j], ns[j + 1]) && Activates(ns[k], ns[k + 1]) ==>
              ns[j + 1].CurrentView() != ns[k + 1].CurrentView()
    ensures Accepts(ns[j], ns[j + 1]) && Accepts(ns[k], ns[k + 1]) ==>
              ns[j + 1].CurrentView() != ns[k + 1].CurrentView()
    ensures var a := Step(ns[j], steps[j].0, steps[j].1).call;
            var b := Step(ns[k], steps[k].0, steps[k].1).call;
            a.Some? && b.Some? ==> a.value.view != b.value.view
  {
    hide Step;
    RunIsRising(ns, steps);
    RunKeepsInv(ns, steps, j);
    RunKeepsInv(ns, steps, k);
    StepMilestones(ns[j], steps[j].0, steps[j].1);
    StepMilestones(ns[k], steps[k].0, steps[k].1);
    OnceEach(ns, j, k, Step(ns[j], steps[j].0, steps[j].1).call, Step(ns[k], steps[k].0, steps[k].1).call);
  }

  lemma OnceEach(ns: seq<Node>, j: nat, k: nat, a: Option<CommitCall>, b: Option<CommitCall>)
    requires Rising(ns) && j < k < |ns| - 1
    requires Milestones(ns[j], ns[j + 1], a) && Milestones(ns[k], ns[k + 1], b)
    ensures Activates(ns[j], ns[j + 1]) && Activates(ns[k], ns[k + 1]) ==>
              ns[j + 1].CurrentView() != ns[k + 1].CurrentView()
    ensures Accepts(ns[j], ns[j + 1]) && Accepts(ns[k], ns[k + 1]) ==>
              ns[j + 1].CurrentView() != ns[k + 1].CurrentView()
    ensures a.Some? && b.Some? ==> a.value.view != b.value.view
  {
    if Activates(ns[j], ns[j + 1]) { CrossesOnce(ns, j, k, Mark(ns[j + 1].CurrentView(), 1)); }
    if Accepts(ns[j], ns[j + 1]) { CrossesOnce(ns, j, k, Mark(ns[j + 1].CurrentView(), 2)); }
    if a.Some? { CrossesOnce(ns, j, k, Mark(a.value.view, 4)); }
  }

  // ----- what checkMessage says over time -----

  ghost function Verdict(n: Node, m: Message): Err {
    CheckMessage(m, n.CurrentView(), n.waiting, n.phase)
  }

  /** Early, acceptable, outdated; a message that does not decode never changes. */
  ghost function Age(verdict: Err): nat {
    match verdict
    case FutureMessage => 0
    case Ok => 1
    case _ => 2
  }

  lemma ProgressAges(n: Node, n': Node, m: Message)
    requires Progress(n).AtMost(Progress(n'))
    ensures Age(Verdict(n, m)) <= Age(Verdict(n', m))
  {
  }

  /**
   * Over any run a message only goes from early to acceptable to outdated: what was discarded
   * as old would never have become acceptable, and what was acceptable is never early again.
   */
  lemma VerdictsOnlyAge(ns: seq<Node>, steps: seq<(Event, Oracle)>, j: nat, k: nat, m: Message)
    requires IsNodeRun(ns, steps) && NodeInv(ns[0]) && j <= k <= |steps|
    ensures Age(Verdict(ns[j], m)) <= Age(Verdict(ns[k], m))
  {
    hide Step, CheckMessage;
    RunIsRising(ns, steps);
    RisingIsMonotone(ns, j, k);
    ProgressAges(ns[j], ns[k], m);
  }

  // ----- locks -----

  /** Within a sequence a lock is only ever taken, kept or dropped, never moved to another block. */
  lemma StepMovesNoLock(n: Node, ev: Event, o: Oracle)
    requires NodeInv(n)
    ensures var n' := Step(n, ev, o).node;
            && (n'.sequence != n.sequence ==> !n'.IsLocked() && n'.round == 0)
            && (n'.sequence == n.sequence && n.IsLocked() && n'.IsLocked() ==> n'.locked == n.locked)
  {
    hide Step;
    StepMoves(n, ev, o);
  }

  /** The step drops a lock without leaving the sequence. */
  ghost predicate Drops(n: Node, n': Node) {
    n.IsLocked() && n'.sequence == n.sequence && !n'.IsLocked()
  }

  /**
   * A lock is dropped exactly by a timeout or by a commit that the backend refuses. After a refusal
   * the node is unlocked in the next round also when it took the lock only in the same step.
   */
  lemma DropsExactlyOnTimeoutOrRefusal(n: Node, ev: Event, o: Oracle)
    requires NodeInv(n)
    ensures var e := Step(n, ev, o);
            && (Drops(n, e.node) <==>
                  n.IsLocked() && e.node.sequence == n.sequence && (ev.Timeout? || (e.call.Some? && !o.commitOk)))
            && (e.call.Some? && !o.commitOk ==>
                  !e.node.IsLocked() && e.node.CurrentView() == View(n.sequence, n.round + 1))
  {
    hide Step;
    StepMoves(n, ev, o);
  }

  /** A lock appears only with a threshold of PREPAREs or COMMITs for the block in the current view. */
  lemma StepLocksWithQuorum(n: Node, ev: Event, o: Oracle)
    requires NodeInv(n)
    ensures var n' := Step(n, ev, o).node;
            n'.IsLocked() && !n.IsLocked() ==>
              && n'.CurrentView() == n.CurrentView() && n'.vals == n.vals
              && MatchesSubject(n', n'.CurrentView(), n'.locked)
              && !n'.waiting && n'.phase != AcceptRequest
              && n'.Reaches(PrepareOrCommitSize(n'))
  {
    hide Step;
    StepMoves(n, ev, o);
    StepKeepsInv(n, ev, o);
    var e := Step(n, ev, o);
    if CommitsDone(n, e) {
      UnionReachesToo(n.vals, e.node.prepares.Keys, e.node.commits.Keys);
    }
  }

  /** The node holds PREPAREs and COMMITs for h from a threshold of members in its current view. */
  ghost predicate HoldsQuorum(n: Node, h: Hash) {
    && !n.waiting && n.phase != AcceptRequest && MatchesSubject(n, n.CurrentView(), h) && SetsHomogeneous(n)
    && n.Reaches(PrepareOrCommitSize(n))
  }

  /** The j-th state is where the lock of the k-th comes from. */
  ghost predicate LockOrigin(ns: seq<Node>, j: nat, k: nat)
    requires j < |ns| && k < |ns|
  {
    j <= k && ns[j].sequence == ns[k].sequence && ns[j].round <= ns[k].round && HoldsQuorum(ns[j], ns[k].locked)
  }

  /** Lock provenance: a lock goes back to a round of the sequence in which the node itself held a quorum. */
  lemma {:induction false} LockHasOrigin(ns: seq<Node>, steps: seq<(Event, Oracle)>, k: nat)
    requires IsNodeRun(ns, steps) && NodeInv(ns[0]) && !ns[0].IsLocked()
    requires k <= |steps| && ns[k].IsLocked()
    ensures exists j: nat :: j < |ns| && LockOrigin(ns, j, k)
  {
    hide Step, HoldsQuorum;
    if k > 0 {
      var n, ev, o := ns[k - 1], steps[k - 1].0, steps[k - 1].1;
      assert ns[k - 1 + 1] == Step(n, ev, o).node;
      RunKeepsInv(ns, steps, k - 1);
      StepMovesNoLock(n, ev, o);
      StepIsMonotone(n, ev, o);
      if n.IsLocked() {
        LockHasOrigin(ns, steps, k - 1);
        var j: nat :| j < |ns| && LockOrigin(ns, j, k - 1);
        assert LockOrigin(ns, j, k);
      } else {
        LockTakenWithQuorum(n, ev, o);
        assert LockOrigin(ns, k, k);
      }
    }
  }

  lemma LockTakenWithQuorum(n: Node, ev: Event, o: Oracle)
    requires NodeInv(n) && !n.IsLocked() && Step(n, ev, o).node.IsLocked()
    ensures HoldsQuorum(Step(n, ev, o).node, Step(n, ev, o).node.locked)
  {
    hide Step;
    StepLocksWithQuorum(n, ev, o);
    StepKeepsInv(n, ev, o);
  }

  // ----- what a message tells about its sender -----

  ghost predicate IsSupport(m: Message) {
    m.PrepareMsg? || m.CommitMsg?
  }

  /** The old-block reply: a COMMIT about a view before the node's own. */
  ghost predicate IsOldReply(n: Node, m: Message) {
    m.CommitMsg? && m.view.Before(n.CurrentView())
  }

  /**
   * A PREPARE is sent from an unlocked, empty view; a COMMIT from a node now locked on its
   * digest, which either was locked on it or has just prepared it, and its seal is over the digest.
   */
  ghost predicate SupportsRightly(n: Node, n': Node, m: Message)
    requires IsSupport(m)
  {
    && m.view == n.CurrentView() == n'.CurrentView()
    && !n.waiting && !n'.waiting && MatchesSubject(n', m.view, m.digest)
    && match m
       case PrepareMsg(_, _, _) =>
         n.phase == AcceptRequest && !n.IsLocked() && n'.phase == PrePrepared && !n'.IsLocked()
       case CommitMsg(_, _, d, seal) =>
         && n'.phase == Prepared && n'.locked == d && seal == Some(Seal(n.id, d))
         && ((n.phase == AcceptRequest && n.locked == d)
             || (n.phase == PrePrepared && !n.IsLocked() && MatchesSubject(n, m.view, d)))
  }

  lemma StepSendsRightly(n: Node, ev: Event, o: Oracle)
    requires NodeInv(n)
    ensures var e := Step(n, ev, o);
            e.node.id == n.id &&
            (e.out.Some? ==>
               var m := e.out.value;
               && m.from == n.id && !m.Malformed?
               && (IsSupport(m) ==> if IsOldReply(n, m) then e.node == n else SupportsRightly(n, e.node, m))
               && (m.RoundChangeMsg? ==>
                     m.view == e.node.CurrentView() && n.CurrentView().Before(m.view) && m.view.sequence == n.sequence)
               && (m.PrePrepareMsg? ==> Proposes(e.node, m)))
  {
    hide Step;
    StepMoves(n, ev, o);
  }

  /** StartNewRound makes the node active in a round of its own sequence. */
  ghost predicate BeginsRound(n: Node, round: nat, o: Oracle) {
    o.last.Some? && o.last.value.height + 1 == n.sequence && round != 0 && round >= n.round
  }

  /**
   * A locked node that begins a round proposes its locked block there if and only if it is the
   * round's proposer and the block has the height of the sequence; it proposes nothing else.
   */
  lemma LockedProposerRepeats(n: Node, round: nat, o: Oracle)
    requires NodeInv(n) && n.IsLocked()
    ensures var e := StartNewRound(n, round, o);
            e.out == if BeginsRound(n, round, o) && e.node.IsProposer(n.id)
                        && n.prePrepare.value.proposal.height == n.sequence
                     then Some(PrePrepareMsg(n.id, View(n.sequence, round), n.prePrepare.value.proposal))
                     else None
    ensures n.prePrepare.value.proposal.hash == n.locked
  {
  }

  ghost predicate ProposesOther(out: Option<Message>, hash: Hash) {
    out.Some? && out.value.PrePrepareMsg? && out.value.proposal.hash != hash
  }

  /** A locked node proposes a block other than its lock exactly when it is asked to as the active proposer. */
  lemma LockedProposesOtherExactly(n: Node, ev: Event, o: Oracle)
    requires NodeInv(n) && n.IsLocked()
    ensures ProposesOther(Step(n, ev, o).out, n.locked) <==>
            && ev.Request? && n.phase == AcceptRequest && !n.waiting && n.IsProposer(n.id)
            && ev.proposal.height == n.sequence && ev.proposal.hash != n.locked
  {
    hide HandleMsg, StartNewRound;
    match ev {
      case Deliver(m) => MessagesRepeatLock(n, m, o);
      case Replay(m) => MessagesRepeatLock(n, m, o);
      case Timeout => TimeoutProposesNothing(n, o);
      case FinalCommitted => LockedProposerRepeats(n, 0, o);
      case Request(p) =>
    }
  }

  lemma TimeoutProposesNothing(n: Node, o: Oracle)
    ensures var out := HandleTimeout(n, o).out; out.Some? ==> out.value.RoundChangeMsg?
  {
  }

  lemma MessagesRepeatLock(n: Node, m: Message, o: Oracle)
    requires NodeInv(n) && n.IsLocked()
    ensures !ProposesOther(HandleMsg(n, m, o).out, n.locked)
  {
    hide StartNewRound;
    if m.RoundChangeMsg? {
      var a := n.(roundChanges := AddRoundChange(n.roundChanges, n.vals, m));
      if CheckMessage(m, n.CurrentView(), n.waiting, n.phase) == Ok {
        AddRoundChangeKeeps(n, m);
        LockedProposerRepeats(a, m.view.round, o);
      }
    }
  }

  lemma AddRoundChangeKeeps(n: Node, m: Message)
    requires NodeInv(n) && m.RoundChangeMsg? && CheckMessage(m, n.CurrentView(), n.waiting, n.phase) == Ok
    ensures NodeInv(n.(roundChanges := AddRoundChange(n.roundChanges, n.vals, m)))
  {
    AddRoundChangeKeyed(n.roundChanges, n.vals, n.sequence, m);
  }

  /** Every request is proposed: two of them make an honest proposer send two PRE-PREPAREs in one view. */
  lemma TwoRequestsTwoProposals(n: Node, p: Proposal, p': Proposal, o: Oracle, o': Oracle)
    requires n.phase == AcceptRequest && !n.waiting && n.IsProposer(n.id) && p.height == n.sequence == p'.height
    ensures var e := Step(n, Request(p), o);
            && e.out == Some(PrePrepareMsg(n.id, n.CurrentView(), p))
            && Step(e.node, Request(p'), o').out == Some(PrePrepareMsg(n.id, n.CurrentView(), p'))
  {
  }
}
