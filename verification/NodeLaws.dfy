/** What every step of one node keeps, and what a message or a commit tells about the step that made it. */
module NodeLaws {
  import opened Protocol
  import opened Quorum
  import opened Selector
  import opened NodeSpec

  // ----- the node invariant -----

  /**
   * Lock coherence: a lock is on the accepted block; an active node is locked once it is
   * Prepared and unlocked while it is PrePrepared.
   */
  ghost predicate LockCoherent(n: Node) {
    && (n.IsLocked() ==> n.prePrepare.Some? && n.prePrepare.value.proposal.hash == n.locked)
    && (!n.waiting && n.phase.Rank() >= Prepared.Rank() ==> n.IsLocked())
    && (!n.waiting && n.phase == PrePrepared ==> !n.IsLocked() && n.prePrepare.Some?)
    && (!n.waiting && n.phase != AcceptRequest ==> n.prePrepare.value.view == n.CurrentView())
  }

  ghost predicate AllPrepares(ms: MessageMap, vals: seq<Id>, view: View, digest: Hash) {
    forall v :: v in ms ==>
      v in vals && ms[v].PrepareMsg? && ms[v].from == v && ms[v].view == view && ms[v].digest == digest
  }

  ghost predicate AllCommits(ms: MessageMap, vals: seq<Id>, view: View, digest: Hash) {
    forall v :: v in ms ==>
      v in vals && ms[v].CommitMsg? && ms[v].from == v && ms[v].view == view && ms[v].digest == digest
  }

  /** Every stored PREPARE or COMMIT is a member's, about the current view and the accepted block. */
  ghost predicate SetsHomogeneous(n: Node) {
    if n.waiting || n.phase == AcceptRequest then n.prepares == map[] && n.commits == map[]
    else
      && n.prePrepare.Some?
      && AllPrepares(n.prepares, n.vals, n.CurrentView(), n.prePrepare.value.proposal.hash)
      && AllCommits(n.commits, n.vals, n.CurrentView(), n.prePrepare.value.proposal.hash)
  }

  ghost predicate KeyedSet(ms: MessageMap, vals: seq<Id>, sequence: nat, key: nat) {
    forall v :: v in ms ==>
      && v in vals && ms[v].RoundChangeMsg? && ms[v].from == v
      && ms[v].view.sequence == sequence && Low64(ms[v].view.round) == key
  }

  /** Every stored ROUND CHANGE is a member's, of the current sequence, under the key of its round. */
  ghost predicate Keyed(rcs: map<nat, MessageMap>, vals: seq<Id>, sequence: nat) {
    forall k :: k in rcs ==> k < TWO_64 && KeyedSet(rcs[k], vals, sequence, k)
  }

  ghost predicate RoundChangesKeyed(n: Node) {
    Keyed(n.roundChanges, n.vals, n.sequence)
  }

  ghost predicate NodeInv(n: Node) {
    n.sequence >= 1 && LockCoherent(n) && SetsHomogeneous(n) && RoundChangesKeyed(n)
  }

  lemma BootInv(id: Id, policy: Policy, last: Last, vals: seq<Id>)
    ensures NodeInv(Boot(id, policy, last, vals))
  {
  }

  lemma StartNewRoundInv(n: Node, round: nat, o: Oracle)
    requires n.sequence >= 1 && RoundChangesKeyed(n)
    requires n.IsLocked() ==> n.prePrepare.Some? && n.prePrepare.value.proposal.hash == n.locked
    requires StartNewRound(n, round, o).node != n || NodeInv(n)
    ensures NodeInv(StartNewRound(n, round, o).node)
  {
  }

  /** Moving to a higher round restores the invariant whatever became of the lock. */
  lemma SendRoundChangeInv(n: Node, round: nat)
    requires n.sequence >= 1 && n.round < round && RoundChangesKeyed(n)
    requires n.IsLocked() ==> n.prePrepare.Some? && n.prePrepare.value.proposal.hash == n.locked
    ensures NodeInv(SendRoundChange(n, round).node)
  {
  }

  lemma AddRoundChangeKeyed(rcs: map<nat, MessageMap>, vals: seq<Id>, sequence: nat, m: Message)
    requires Keyed(rcs, vals, sequence) && m.RoundChangeMsg? && m.view.sequence == sequence
    ensures Keyed(AddRoundChange(rcs, vals, m), vals, sequence)
  {
    var key := Low64(m.view.round);
    assert KeyedSet(AddRoundChange(rcs, vals, m)[key], vals, sequence, key);
  }

  lemma RoundChangeInv(n: Node, m: Message, o: Oracle)
    requires NodeInv(n) && m.RoundChangeMsg?
    ensures NodeInv(HandleRoundChange(n, m, o).node)
  {
    var a := n.(roundChanges := AddRoundChange(n.roundChanges, n.vals, m));
    if CheckMessage(m, n.CurrentView(), n.waiting, n.phase) == Ok {
      AddRoundChangeKeyed(n.roundChanges, n.vals, n.sequence, m);
      assert NodeInv(a);
      StartNewRoundInv(a, m.view.round, o);
      if n.round < m.view.round { SendRoundChangeInv(a, m.view.round); }
    }
  }

  lemma PrePrepareInv(n: Node, m: Message, o: Oracle)
    requires NodeInv(n) && m.PrePrepareMsg?
    ensures NodeInv(HandlePrePrepare(n, m, o).node)
  {
    SendRoundChangeInv(n, n.round + 1);
  }

  lemma PrepareInv(n: Node, m: Message)
    requires NodeInv(n) && m.PrepareMsg?
    ensures NodeInv(HandlePrepare(n, m).node)
  {
    if CheckMessage(m, n.CurrentView(), n.waiting, n.phase) == Ok && MatchesSubject(n, m.view, m.digest) {
      var a := n.(prepares := AddTo(n.prepares, n.vals, m));
      assert NodeInv(a);
      assert NodeInv(LockHash(a).(phase := Prepared));
    }
  }

  lemma CommitInv(n: Node, m: Message, o: Oracle)
    requires NodeInv(n) && m.CommitMsg?
    ensures NodeInv(HandleCommit(n, m, o).node)
  {
    if CheckMessage(m, n.CurrentView(), n.waiting, n.phase) == Ok && MatchesSubject(n, m.view, m.digest) {
      var a := n.(commits := AddTo(n.commits, n.vals, m));
      assert NodeInv(a);
      HandOverInv(a, o);
    }
  }

  lemma HandOverInv(a: Node, o: Oracle)
    requires NodeInv(a) && !a.waiting && a.phase != AcceptRequest
    ensures NodeInv(Commit(LockHash(a), o).node)
  {
    var c := LockHash(a).(phase := Committed);
    assert NodeInv(c);
    SendRoundChangeInv(c.(locked := NIL_HASH), c.round + 1);
  }

  lemma TimeoutInv(n: Node, o: Oracle)
    requires NodeInv(n)
    ensures NodeInv(HandleTimeout(n, o).node)
  {
    var u := Released(n);
    var max := MaxRound(n.roundChanges, FaultTolerantNum(|n.vals|) + 1);
    if max.Some? && max.value > n.round { SendRoundChangeInv(u, max.value); }
    SendRoundChangeInv(u, u.round + 1);
  }

  /** Every step keeps the node invariant. */
  lemma StepKeepsInv(n: Node, ev: Event, o: Oracle)
    requires NodeInv(n)
    ensures NodeInv(Step(n, ev, o).node)
  {
    match ev {
      case Deliver(m) => HandleMsgInv(n, m, o);
      case Replay(m) => HandleMsgInv(n, m, o);
      case Timeout => TimeoutInv(n, o);
      case FinalCommitted => StartNewRoundInv(n, 0, o);
      case Request(p) =>
    }
  }

  lemma HandleMsgInv(n: Node, m: Message, o: Oracle)
    requires NodeInv(n)
    ensures NodeInv(HandleMsg(n, m, o).node)
  {
    match m {
      case PrePrepareMsg(_, _, _) => PrePrepareInv(n, m, o);
      case PrepareMsg(_, _, _) => PrepareInv(n, m);
      case CommitMsg(_, _, _, _) => CommitInv(n, m, o);
      case RoundChangeMsg(_, _, _) => RoundChangeInv(n, m, o);
      case Malformed(_) =>
    }
  }

  /**
   * In a reachable state the "already locked" disjunct of HandlePrepare never decides: whenever
   * the node could still move to Prepared it is unlocked, so only the threshold moves it.
   */
  lemma LockedDisjunctIsIdle(n: Node, m: Message)
    requires NodeInv(n) && m.PrepareMsg?
    ensures var e := HandlePrepare(n, m);
            e.out.Some? <==>
              && CheckMessage(m, n.CurrentView(), n.waiting, n.phase) == Ok
              && MatchesSubject(n, m.view, m.digest)
              && n.phase == PrePrepared
              && n.Reaches(|AddTo(n.prepares, n.vals, m).Keys + n.commits.Keys|)
  {
  }

  // ----- what a node stores -----

  ghost predicate AllIn(ms: MessageMap, net: set<Message>) {
    forall v :: v in ms ==> ms[v] in net
  }

  ghost predicate AllSetsIn(rcs: map<nat, MessageMap>, net: set<Message>) {
    forall k :: k in rcs ==> AllIn(rcs[k], net)
  }

  ghost predicate StoredIn(n: Node, net: set<Message>) {
    AllIn(n.prepares, net) && AllIn(n.commits, net) && AllSetsIn(n.roundChanges, net)
  }

  /** A step stores no message but the one it handles. */
  lemma StepStoresOnlySent(n: Node, ev: Event, o: Oracle, net: set<Message>)
    requires StoredIn(n, net) && (ev.Deliver? || ev.Replay? ==> ev.msg in net)
    ensures StoredIn(Step(n, ev, o).node, net)
  {
    match ev {
      case Deliver(m) => MsgStoresOnlySent(n, m, o, net);
      case Replay(m) => MsgStoresOnlySent(n, m, o, net);
      case Timeout => TimeoutStoresNothing(n, o, net);
      case FinalCommitted =>
      case Request(p) =>
    }
  }

  lemma TimeoutStoresNothing(n: Node, o: Oracle, net: set<Message>)
    requires StoredIn(n, net)
    ensures StoredIn(HandleTimeout(n, o).node, net)
  {
    var u := Released(n);
    assert StoredIn(u, net);
    var max := MaxRound(n.roundChanges, FaultTolerantNum(|n.vals|) + 1);
    if max.Some? && max.value > n.round { assert StoredIn(SendRoundChange(u, max.value).node, net); }
    assert StoredIn(SendNextRoundChange(u).node, net);
    assert StoredIn(StartNewRound(u, 0, o).node, net);
  }

  lemma MsgStoresOnlySent(n: Node, m: Message, o: Oracle, net: set<Message>)
    requires StoredIn(n, net) && m in net
    ensures StoredIn(HandleMsg(n, m, o).node, net)
  {
    hide HandlePrePrepare, HandlePrepare, HandleCommit, HandleRoundChange;
    match m {
      case PrePrepareMsg(_, _, _) => PrePrepareStoresNothing(n, m, o, net);
      case PrepareMsg(_, _, _) => PrepareStoresOnlySent(n, m, net);
      case CommitMsg(_, _, _, _) => CommitStoresOnlySent(n, m, o, net);
      case RoundChangeMsg(_, _, _) => RoundChangeStoresOnlySent(n, m, o, net);
      case Malformed(_) =>
    }
  }

  lemma PrePrepareStoresNothing(n: Node, m: Message, o: Oracle, net: set<Message>)
    requires StoredIn(n, net) && m.PrePrepareMsg?
    ensures StoredIn(HandlePrePrepare(n, m, o).node, net)
  {
  }

  lemma PrepareStoresOnlySent(n: Node, m: Message, net: set<Message>)
    requires StoredIn(n, net) && m in net && m.PrepareMsg?
    ensures StoredIn(HandlePrepare(n, m).node, net)
  {
  }

  lemma CommitStoresOnlySent(n: Node, m: Message, o: Oracle, net: set<Message>)
    requires StoredIn(n, net) && m in net && m.CommitMsg?
    ensures StoredIn(HandleCommit(n, m, o).node, net)
  {
    var a := n.(commits := AddTo(n.commits, n.vals, m));
    assert StoredIn(a, net);
  }

  lemma RoundChangeStoresOnlySent(n: Node, m: Message, o: Oracle, net: set<Message>)
    requires StoredIn(n, net) && m in net && m.RoundChangeMsg?
    ensures StoredIn(HandleRoundChange(n, m, o).node, net)
  {
    var a := n.(roundChanges := AddRoundChange(n.roundChanges, n.vals, m));
    assert StoredIn(a, net);
    assert StoredIn(StartNewRound(a, m.view.round, o).node, net);
    assert StoredIn(SendRoundChange(a, m.view.round).node, net);
  }

  /** The COMMITs handed to the backend are members' COMMITs of the current view for that block. */
  ghost predicate CommitsHeld(n: Node, call: CommitCall, net: set<Message>) {
    && call.view == n.CurrentView() && AllIn(call.commits, net)
    && ReachThreshold(|n.vals|, |call.commits|)
    && AllCommits(call.commits, n.vals, n.CurrentView(), call.proposal.hash)
  }

  lemma HandleCommitHolds(n: Node, m: Message, o: Oracle, net: set<Message>)
    requires NodeInv(n) && StoredIn(n, net) && m.CommitMsg? && m in net
    ensures var call := HandleCommit(n, m, o).call; call.Some? ==> CommitsHeld(n, call.value, net)
  {
    if CheckMessage(m, n.CurrentView(), n.waiting, n.phase) == Ok && MatchesSubject(n, m.view, m.digest) {
      var a := n.(commits := AddTo(n.commits, n.vals, m));
      assert AllCommits(a.commits, n.vals, n.CurrentView(), n.prePrepare.value.proposal.hash);
      assert AllIn(a.commits, net);
    }
  }

  lemma OnlyCommitsCall(n: Node, m: Message, o: Oracle)
    requires !m.CommitMsg?
    ensures HandleMsg(n, m, o).call.None?
  {
  }

  lemma StepCommitsWhatItHolds(n: Node, ev: Event, o: Oracle, net: set<Message>)
    requires NodeInv(n) && StoredIn(n, net) && (ev.Deliver? || ev.Replay? ==> ev.msg in net)
    ensures var call := Step(n, ev, o).call; call.Some? ==> CommitsHeld(n, call.value, net)
  {
    if ev.Deliver? || ev.Replay? {
      if ev.msg.CommitMsg? {
        HandleCommitHolds(n, ev.msg, o, net);
      } else {
        OnlyCommitsCall(n, ev.msg, o);
      }
    }
  }
}
