/**
 * What a node does in answer to an event, told by what it can be seen to do: which message it sends,
 * when it calls the backend, when it changes rounds or sequences. The laws are equivalences over all
 * events, in terms of the node before the step and of the event alone.
 */
module Responses {
  import opened Protocol
  import opened Quorum
  import opened Selector
  import opened NodeSpec
  import opened NodeLaws

  // ----- what an event can be -----

  /** The message reaches a handler: from the network it must be a member's, from the backlog it may be anybody's. */
  ghost predicate Heard(n: Node, ev: Event) {
    ev.Replay? || (ev.Deliver? && ev.msg.from in n.vals)
  }

  /** The accepted block's hash. */
  ghost function Subject(n: Node): Hash
    requires n.prePrepare.Some?
  {
    n.prePrepare.value.proposal.hash
  }

  ghost function WithMember(ids: set<Id>, vals: seq<Id>, v: Id): set<Id> {
    if v in vals then ids + {v} else ids
  }

  /** A verified PRE-PREPARE of the view's proposer, to a node that is active in the view and accepts requests. */
  ghost predicate Offered(n: Node, m: Message, o: Oracle) {
    && m.PrePrepareMsg? && m.view == n.CurrentView() && !n.waiting && n.phase == AcceptRequest
    && n.IsProposer(m.from) && o.verifyOk
  }

  /** A PRE-PREPARE of a past view whose proposer and block the backend knows. */
  ghost predicate KnownOld(n: Node, m: Message, o: Oracle) {
    m.PrePrepareMsg? && m.view.Before(n.CurrentView()) && o.oldProposer && o.hasProposal
  }

  /** A PREPARE or COMMIT for the accepted block of the view the node is active in. */
  ghost predicate Supports(n: Node, m: Message) {
    && (m.PrepareMsg? || m.CommitMsg?) && m.view == n.CurrentView() && !n.waiting && n.phase != AcceptRequest
    && n.prePrepare.Some? && m.digest == Subject(n)
  }

  /** The PREPARE is the one that completes a threshold of senders of PREPAREs and COMMITs. */
  ghost predicate Completes(n: Node, m: Message) {
    && m.PrepareMsg? && Supports(n, m) && n.phase == PrePrepared
    && ReachThreshold(|n.vals|, |WithMember(n.prepares.Keys + n.commits.Keys, n.vals, m.from)|)
  }

  /** With the COMMIT a threshold of members has committed, and the node has not yet. */
  ghost predicate Decides(n: Node, m: Message) {
    && m.CommitMsg? && Supports(n, m) && (n.phase == PrePrepared || n.phase == Prepared)
    && ReachThreshold(|n.vals|, |WithMember(n.commits.Keys, n.vals, m.from)|)
  }

  /** A ROUND CHANGE of the node's sequence for its round or a later one. */
  ghost predicate Asks(n: Node, m: Message) {
    m.RoundChangeMsg? && m.view.sequence == n.sequence && m.view.round >= n.round
  }

  /** Who has asked the node for the round, by its key, once the message is counted. */
  ghost function Callers(n: Node, m: Message): set<Id>
    requires m.RoundChangeMsg?
  {
    var k := Low64(m.view.round);
    (if k in n.roundChanges then n.roundChanges[k].Keys else {}) + {m.from}
  }

  /** With the ROUND CHANGE of a member a threshold asks for a round that the node is not active in. */
  ghost predicate CallsRound(n: Node, m: Message) {
    && Asks(n, m) && m.from in n.vals && ReachThreshold(|n.vals|, |Callers(n, m)|)
    && (n.waiting || m.view.round > n.round)
  }

  /** With the ROUND CHANGE exactly f + 1 members ask a waiting node for a later round. */
  ghost predicate Joins(n: Node, m: Message) {
    && Asks(n, m) && m.from in n.vals && n.waiting && m.view.round > n.round
    && |Callers(n, m)| == FaultTolerantNum(|n.vals|) + 1 && !ReachThreshold(|n.vals|, |Callers(n, m)|)
  }

  /** The round is one that f + 1 validators asked the node for, and as an int64 it is above its own. */
  ghost predicate Joinable(n: Node, r: nat) {
    n.round < r < TWO_63 && HasAtLeast(n.roundChanges, FaultTolerantNum(|n.vals|) + 1, r)
  }

  /** An active node that times out joins the greatest such round. */
  ghost predicate JoinsOnTimeout(n: Node) {
    !n.waiting && exists r: nat :: Joinable(n, r)
  }

  /** The chain has the node's height. */
  ghost predicate Behind(n: Node, o: Oracle) {
    o.last.Some? && o.last.value.height >= n.sequence
  }

  /** The chain ends right below the node's height. */
  ghost predicate UpToDate(n: Node, o: Oracle) {
    o.last.Some? && o.last.value.height + 1 == n.sequence
  }

  // ----- what becomes of the node -----

  /** The accepted block after a round is entered: a lock keeps it. */
  ghost predicate Carried(n: Node, n': Node) {
    && n'.id == n.id && n'.policy == n.policy && n'.vals == n.vals && n'.sequence == n.sequence
    && n'.prepares == map[] && n'.commits == map[]
    && n'.prePrepare == if n'.IsLocked() then n.prePrepare else None
  }

  /** The stored round changes that matter for round r and later ones. */
  ghost predicate KeepsFrom(rcs: map<nat, MessageMap>, rcs': map<nat, MessageMap>, r: nat) {
    && (forall k :: k in rcs' <==> k in rcs && rcs[k] != map[] && k >= Low64(r))
    && forall k :: k in rcs' ==> rcs'[k] == rcs[k]
  }

  /** The node waits in round r, having kept its proposer and phase. */
  ghost predicate WaitsIn(n: Node, n': Node, r: nat) {
    Carried(n, n') && n'.round == r && n'.waiting && n'.phase == n.phase && n'.proposer == n.proposer
  }

  /** What the node stores of a ROUND CHANGE. */
  ghost predicate Adds(rcs: map<nat, MessageMap>, rcs': map<nat, MessageMap>, vals: seq<Id>, m: Message)
    requires m.RoundChangeMsg?
  {
    var k := Low64(m.view.round);
    && rcs'.Keys == rcs.Keys + {k}
    && (forall j :: j in rcs && j != k ==> rcs'[j] == rcs[j])
    && (forall v :: v in rcs'[k] <==> (k in rcs && v in rcs[k]) || (v == m.from && v in vals))
    && (forall v :: v in rcs'[k] ==> rcs'[k][v] == if v == m.from && v in vals then m else rcs[k][v])
  }

  /** First stored, then cut to round r and later ones. */
  ghost predicate AddsAndKeeps(
    rcs: map<nat, MessageMap>, rcs': map<nat, MessageMap>, vals: seq<Id>, m: Message, r: nat)
    requires m.RoundChangeMsg?
  {
    exists all :: Adds(rcs, all, vals, m) && KeepsFrom(all, rcs', r)
  }

  /** The position a policy starts from: after the last proposer, or at it, or at the first member. */
  ghost function Offset(policy: Policy, last: Id, j: nat): nat {
    if last == "" then 0 else j + if policy == RoundRobin then 1 else 0
  }

  /**
   * The proposer of a round by position. The last proposer counts as the first member if it is not
   * in the list.
   */
  ghost predicate ProposesByPosition(policy: Policy, ids: seq<Id>, last: Id, round: nat, proposer: Option<Id>) {
    if ids == [] then proposer == None
    else exists j: nat :: StartsAt(ids, last, j)
                     && proposer == Some(ids[(Offset(policy, last, j) + round) % |ids|])
  }

  /** The first position of the last proposer, or the first of all if it is not in the list. */
  ghost predicate StartsAt(ids: seq<Id>, last: Id, j: nat) {
    j < |ids| && if last in ids then ids[j] == last && last !in ids[..j] else j == 0
  }

  /** The position decides the proposer. */
  lemma PositionDecides(policy: Policy, ids: seq<Id>, last: Id, round: nat, a: Option<Id>, b: Option<Id>)
    requires ProposesByPosition(policy, ids, last, round, a) && ProposesByPosition(policy, ids, last, round, b)
    ensures a == b
  {
    if ids != [] {
      var j: nat :| StartsAt(ids, last, j) && a == Some(ids[(Offset(policy, last, j) + round) % |ids|]);
      var k: nat :| StartsAt(ids, last, k) && b == Some(ids[(Offset(policy, last, k) + round) % |ids|]);
      OneStart(ids, last, j, k);
      OneStart(ids, last, k, j);
    }
  }

  lemma OneStart(ids: seq<Id>, last: Id, j: nat, k: nat)
    requires StartsAt(ids, last, j) && StartsAt(ids, last, k)
    ensures j <= k
  {
    forall x | 0 <= x < j && last in ids ensures ids[x] != last { assert ids[..j][x] == ids[x]; }
  }

  lemma PickIsByPosition(policy: Policy, ids: seq<Id>, last: Id, round: nat)
    requires round + |ids| < TWO_64
    ensures ProposesByPosition(policy, ids, last, round, Pick(policy, ids, last, round))
  {
    if ids != [] {
      var i := IndexOf(ids, last);
      var j: nat := if i < 0 then 0 else i;
      assert StartsAt(ids, last, j);
    }
  }

  /** The node begins the sequence after the chain's last block, with nothing of the old one left. */
  ghost predicate AdvancesTo(n: Node, n': Node, o: Oracle)
    requires o.last.Some?
  {
    && n'.id == n.id && n'.policy == n.policy && n'.vals == o.vals
    && n'.sequence == o.last.value.height + 1 && n'.round == 0 && !n'.waiting && n'.phase == AcceptRequest
    && n'.prePrepare == None && n'.prepares == map[] && n'.commits == map[] && !n'.IsLocked()
    && n'.pending == None && n'.roundChanges == map[]
    && (|o.vals| < TWO_64 ==> ProposesByPosition(n.policy, o.vals, o.last.value.proposer, 0, n'.proposer))
  }

  /** The node is active in round r of its sequence; its lock and its pending block are kept. */
  ghost predicate BeginsIn(n: Node, n': Node, r: nat, o: Oracle)
    requires o.last.Some?
  {
    && Carried(n, n') && n'.locked == n.locked && n'.pending == n.pending
    && n'.round == r && !n'.waiting && n'.phase == AcceptRequest && n'.roundChanges == map[]
    && (Low64(r) + |n.vals| < TWO_64 ==>
          ProposesByPosition(n.policy, n.vals, o.last.value.proposer, Low64(r), n'.proposer))
  }

  /** A PRE-PREPARE for the block, if there is one of the node's height and the node is the proposer. */
  ghost function ProposalOf(n: Node, p: Option<Proposal>): Option<Message> {
    if p.Some? && p.value.height == n.sequence && n.IsProposer(n.id)
    then Some(PrePrepareMsg(n.id, n.CurrentView(), p.value)) else None
  }

  // ----- the answer to each event -----

  ghost predicate Silently(n: Node, e: Effect) { e.node == n && e.out.None? && e.call.None? }

  lemma PrePrepareAnswer(n: Node, m: Message, o: Oracle)
    requires NodeInv(n) && m.PrePrepareMsg?
    ensures AnswersMsg(n, m, o, HandlePrePrepare(n, m, o))
  {
  }

  lemma PrepareAnswer(n: Node, m: Message, o: Oracle)
    requires NodeInv(n) && m.PrepareMsg?
    ensures AnswersMsg(n, m, o, HandlePrepare(n, m))
  {
    hide ReachThreshold, PrepareIfReady;
    if Supports(n, m) {
      var a := n.(prepares := AddTo(n.prepares, n.vals, m));
      assert HandlePrepare(n, m) == PrepareIfReady(a, m.digest);
      PrepareWhenReady(n, a, m);
    }
  }

  lemma PrepareWhenReady(n: Node, a: Node, m: Message)
    requires NodeInv(n) && Supports(n, m) && m.PrepareMsg? && a == n.(prepares := AddTo(n.prepares, n.vals, m))
    ensures PrepareIfReady(a, m.digest)
            == if Completes(n, m)
               then Effect(a.(phase := Prepared, locked := Subject(n)),
                           Some(CommitMsg(n.id, n.CurrentView(), Subject(n), Some(Seal(n.id, Subject(n))))), None, Ok)
               else Effect(a, None, None, Ok)
  {
    hide ReachThreshold, SetsHomogeneous, RoundChangesKeyed;
    assert a.prepares.Keys + a.commits.Keys == WithMember(n.prepares.Keys + n.commits.Keys, n.vals, m.from);
  }

  lemma CommitAnswer(n: Node, m: Message, o: Oracle)
    requires NodeInv(n) && m.CommitMsg?
    ensures AnswersMsg(n, m, o, HandleCommit(n, m, o))
  {
    hide ReachThreshold, CommitIfReady;
    if Supports(n, m) {
      var a := n.(commits := AddTo(n.commits, n.vals, m));
      assert HandleCommit(n, m, o) == CommitIfReady(a, o);
      CommitsWhenReady(n, a, m, o);
      if Decides(n, m) { CommitsWhole(n, LockHash(a), o); }
    }
  }

  lemma CommitsWhenReady(n: Node, a: Node, m: Message, o: Oracle)
    requires Supports(n, m) && m.CommitMsg? && a == n.(commits := AddTo(n.commits, n.vals, m))
    ensures CommitIfReady(a, o) == if Decides(n, m) then Commit(LockHash(a), o) else Effect(a, None, None, Ok)
  {
    hide ReachThreshold, Commit, LockHash;
    assert a.commits.Keys == WithMember(n.commits.Keys, n.vals, m.from);
    assert |a.commits| == |a.commits.Keys|;
  }

  lemma CommitsWhole(n: Node, a: Node, o: Oracle)
    requires n.prePrepare.Some? && a == n.(commits := a.commits, locked := Subject(n))
    ensures HandsOver(n, a.commits, o, Commit(a, o))
  {
  }

  /** A ROUND CHANGE that is not older than the node's view is stored, and may start or join a round. */
  lemma RoundChangeAnswer(n: Node, m: Message, o: Oracle)
    requires NodeInv(n) && m.RoundChangeMsg?
    ensures AnswersMsg(n, m, o, HandleRoundChange(n, m, o))
  {
    hide ReachThreshold, StartNewRound, SendRoundChange, AddRoundChange, FaultTolerantNum, Adds, KeepsFrom;
    hide AdvancesTo, BeginsIn, WaitsIn, Repeats;
    if Asks(n, m) {
      var a := n.(roundChanges := AddRoundChange(n.roundChanges, n.vals, m));
      StoresAsked(n, m);
      StartAnswer(n, a, m.view.round, o);
      JoinAnswer(n, a, m.view.round);
    }
  }

  lemma StoresAsked(n: Node, m: Message)
    requires m.RoundChangeMsg?
    ensures var rcs, k := AddRoundChange(n.roundChanges, n.vals, m), Low64(m.view.round);
            && Adds(n.roundChanges, rcs, n.vals, m) && k in rcs
            && (m.from in n.vals ==> |rcs[k]| == |Callers(n, m)|)
  {
    hide Low64;
    var rcs, k := AddRoundChange(n.roundChanges, n.vals, m), Low64(m.view.round);
    var was := if k in n.roundChanges then n.roundChanges[k] else map[];
    var now := if m.from in n.vals then was[m.from := m] else was;
    assert rcs == n.roundChanges[k := now];
    StoredIsAdded(n.roundChanges, rcs, n.vals, m, k, was, now);
    if m.from in n.vals {
      assert now.Keys == Callers(n, m);
      assert |now| == |now.Keys|;
    }
  }

  lemma StoredIsAdded(
    rcs: map<nat, MessageMap>, rcs': map<nat, MessageMap>, vals: seq<Id>, m: Message, k: nat,
    was: MessageMap, now: MessageMap)
    requires m.RoundChangeMsg? && k == Low64(m.view.round) && rcs' == rcs[k := now]
    requires was == (if k in rcs then rcs[k] else map[]) && now == if m.from in vals then was[m.from := m] else was
    ensures Adds(rcs, rcs', vals, m)
  {
    hide Low64;
  }

  lemma StartAnswer(n: Node, a: Node, round: nat, o: Oracle)
    requires LockCoherent(n) && a == n.(roundChanges := a.roundChanges) && round >= n.round
    ensures var e := StartNewRound(a, round, o);
            if Behind(n, o) then AdvancesTo(n, e.node, o) && e.out.None?
            else if UpToDate(n, o) && round > 0 then
              BeginsIn(n, e.node, round, o) && Repeats(n, e)
            else Silently(a, e)
  {
    hide Pick, ProposesByPosition;
    if o.last.Some? && |o.vals| < TWO_64 { PickIsByPosition(n.policy, o.vals, o.last.value.proposer, 0); }
    if o.last.Some? && Low64(round) + |n.vals| < TWO_64 {
      PickIsByPosition(n.policy, n.vals, o.last.value.proposer, Low64(round));
    }
  }

  lemma JoinAnswer(n: Node, a: Node, round: nat)
    requires a == n.(roundChanges := a.roundChanges)
    ensures var e := SendRoundChange(a, round);
            if round > n.round then
              && WaitsIn(n, e.node, round) && e.node.locked == n.locked && e.node.pending == n.pending
              && KeepsFrom(a.roundChanges, e.node.roundChanges, round)
              && e.out == Some(RoundChangeMsg(n.id, View(n.sequence, round), NIL_HASH))
            else Silently(a, e)
  {
  }

  /** The node gives up its lock and its pending block and waits in round r, which it asks for. */
  ghost predicate GivesUpFor(n: Node, e: Effect, r: nat) {
    && WaitsIn(n, e.node, r) && !e.node.IsLocked() && e.node.pending == None && e.call.None?
    && KeepsFrom(n.roundChanges, e.node.roundChanges, r)
    && e.out == Some(RoundChangeMsg(n.id, View(n.sequence, r), NIL_HASH))
  }

  lemma TimeoutAnswer(n: Node, o: Oracle)
    requires NodeInv(n)
    ensures var e := HandleTimeout(n, o);
            && e.err == Ok
            && if JoinsOnTimeout(n) then
                 && Joinable(n, e.node.round) && (forall r: nat :: Joinable(n, r) ==> r <= e.node.round)
                 && GivesUpFor(n, e, e.node.round)
               else if Behind(n, o) then AdvancesTo(n, e.node, o) && e.out.None? && e.call.None?
               else GivesUpFor(n, e, n.round + 1)
  {
    hide SendRoundChange, StartNewRound, FaultTolerantNum, NodeInv;
    var u, num := Released(n), FaultTolerantNum(|n.vals|) + 1;
    GreatestJoinable(n);
    var max := MaxRound(u.roundChanges, num);
    JoinAnswer(u, u, n.round + 1);
    if max.Some? && max.value > n.round { JoinAnswer(u, u, max.value); }
    if Behind(n, o) { AdvanceAnswer(n, u, o); }
  }

  lemma AdvanceAnswer(n: Node, u: Node, o: Oracle)
    requires u.id == n.id && u.policy == n.policy && u.sequence == n.sequence && Behind(n, o)
    ensures var e := StartNewRound(u, 0, o); AdvancesTo(n, e.node, o) && e.out.None? && e.call.None? && e.err == Ok
  {
    hide Pick, ProposesByPosition;
    if |o.vals| < TWO_64 { PickIsByPosition(n.policy, o.vals, o.last.value.proposer, 0); }
  }

  lemma GreatestJoinable(n: Node)
    requires NodeInv(n)
    ensures var max := MaxRound(n.roundChanges, FaultTolerantNum(|n.vals|) + 1);
            if exists r: nat :: Joinable(n, r) then
              && max.Some? && max.value > n.round && Joinable(n, max.value)
              && forall r: nat :: Joinable(n, r) ==> r <= max.value
            else max.None? || max.value <= n.round
  {
    hide FaultTolerantNum;
    var num := FaultTolerantNum(|n.vals|) + 1;
    var max := MaxRound(n.roundChanges, num);
    if max.Some? && max.value > n.round {
      var k: nat :| HasAtLeast(n.roundChanges, num, k) && AsInt64(k) == max.value;
      assert k < TWO_64;
      assert Joinable(n, k);
    }
    forall r: nat | Joinable(n, r) ensures max.Some? && r <= max.value { assert AsInt64(r) == r; }
  }

  /** A request of the node's height becomes the pending block of a node that accepts requests. */
  lemma RequestAnswer(n: Node, p: Proposal)
    ensures var e := HandleRequest(n, p);
            && (e.err == OldMessage <==> p.height < n.sequence)
            && (e.err == FutureMessage <==> p.height > n.sequence)
            && (e.err == Ok <==> p.height == n.sequence)
            && if p.height == n.sequence && n.phase == AcceptRequest then
                 && e.node == n.(pending := Some(p)) && e.call.None?
                 && e.out == if n.waiting then None else ProposalOf(n, Some(p))
               else Silently(n, e)
  {
  }

  lemma FinalAnswer(n: Node, o: Oracle)
    ensures var e := StartNewRound(n, 0, o);
            if Behind(n, o) then AdvancesTo(n, e.node, o) && e.out.None? && e.call.None? else Silently(n, e)
  {
    if Behind(n, o) { AdvanceAnswer(n, n, o); }
  }

  // ----- the laws over all events -----

  /** The answer of the step, by the kind of event. */
  ghost predicate Answers(n: Node, ev: Event, o: Oracle, e: Effect) {
    match ev
    case Deliver(m) => if m.from in n.vals then AnswersMsg(n, m, o, e) else Silently(n, e)
    case Replay(m) => AnswersMsg(n, m, o, e)
    case Timeout =>
      if JoinsOnTimeout(n) then
        && Joinable(n, e.node.round) && (forall r: nat :: Joinable(n, r) ==> r <= e.node.round)
        && GivesUpFor(n, e, e.node.round)
      else if Behind(n, o) then AdvancesTo(n, e.node, o) && e.out.None? && e.call.None?
      else GivesUpFor(n, e, n.round + 1)
    case FinalCommitted =>
      if Behind(n, o) then AdvancesTo(n, e.node, o) && e.out.None? && e.call.None? else Silently(n, e)
    case Request(p) =>
      if p.height == n.sequence && n.phase == AcceptRequest then
        && e.node == n.(pending := Some(p)) && e.call.None?
        && e.out == if n.waiting then None else ProposalOf(n, Some(p))
      else Silently(n, e)
  }

  ghost predicate AnswersMsg(n: Node, m: Message, o: Oracle, e: Effect) {
    match m
    case PrePrepareMsg(_, _, p) =>
      if KnownOld(n, m, o) then
        && e.node == n && e.call.None?
        && e.out == Some(CommitMsg(n.id, m.view, p.hash,
                                   if n.prePrepare.Some? then Some(Seal(n.id, Subject(n))) else None))
      else if !Offered(n, m, o) then Silently(n, e)
      else AnswersOffer(n, p, e)
    case PrepareMsg(_, _, _) =>
      && e.call.None?
      && e.out == (if Completes(n, m)
                   then Some(CommitMsg(n.id, n.CurrentView(), Subject(n), Some(Seal(n.id, Subject(n))))) else None)
      && e.node == (if !Supports(n, m) then n
                    else
                      var a := if m.from in n.vals then n.(prepares := n.prepares[m.from := m]) else n;
                      if Completes(n, m) then a.(phase := Prepared, locked := Subject(n)) else a)
    case CommitMsg(_, _, _, _) =>
      var ms := if m.from in n.vals then n.commits[m.from := m] else n.commits;
      if Decides(n, m) then HandsOver(n, ms, o, e)
      else e.out.None? && e.call.None? && e.node == if Supports(n, m) then n.(commits := ms) else n
    case RoundChangeMsg(_, _, _) => e.call.None? && AnswersAsk(n, m, o, e)
    case Malformed(_) => Silently(n, e)
  }

  /** An unlocked node accepts and sends its PREPARE; a locked one repeats its COMMIT, or gives the round up. */
  ghost predicate AnswersOffer(n: Node, p: Proposal, e: Effect) {
    var accepted := n.(prePrepare := Some(PrePrepare(n.CurrentView(), p)));
    && e.call.None?
    && if !n.IsLocked() then
         e.out == Some(PrepareMsg(n.id, n.CurrentView(), p.hash)) && e.node == accepted.(phase := PrePrepared)
       else if p.hash == n.locked then
         && e.out == Some(CommitMsg(n.id, n.CurrentView(), p.hash, Some(Seal(n.id, p.hash))))
         && e.node == accepted.(phase := Prepared)
       else
         && e.out == Some(RoundChangeMsg(n.id, View(n.sequence, n.round + 1), NIL_HASH))
         && WaitsIn(n, e.node, n.round + 1) && e.node.locked == n.locked && e.node.pending == n.pending
         && KeepsFrom(n.roundChanges, e.node.roundChanges, n.round + 1)
  }

  /** The backend gets the block with the COMMITs: the node has committed, or unlocks and gives the round up. */
  ghost predicate HandsOver(n: Node, ms: MessageMap, o: Oracle, e: Effect)
    requires n.prePrepare.Some?
  {
    && e.call == Some(CommitCall(n.CurrentView(), n.prePrepare.value.proposal, ms, o.commitOk))
    && if o.commitOk then
         e.out.None? && e.node == n.(commits := ms, phase := Committed, locked := Subject(n))
       else
         && e.out == Some(RoundChangeMsg(n.id, View(n.sequence, n.round + 1), NIL_HASH))
         && WaitsIn(n.(phase := Committed), e.node, n.round + 1) && !e.node.IsLocked() && e.node.pending == n.pending
         && KeepsFrom(n.roundChanges, e.node.roundChanges, n.round + 1)
  }

  ghost predicate AnswersAsk(n: Node, m: Message, o: Oracle, e: Effect)
    requires m.RoundChangeMsg?
  {
    if !Asks(n, m) then Silently(n, e)
    else if CallsRound(n, m) && Behind(n, o) then AdvancesTo(n, e.node, o) && e.out.None?
    else if CallsRound(n, m) && UpToDate(n, o) && m.view.round > 0 then
      BeginsIn(n, e.node, m.view.round, o) && Repeats(n, e)
    else if Joins(n, m) then
      && WaitsIn(n, e.node, m.view.round) && e.node.locked == n.locked && e.node.pending == n.pending
      && AddsAndKeeps(n.roundChanges, e.node.roundChanges, n.vals, m, m.view.round)
      && e.out == Some(RoundChangeMsg(n.id, m.view, NIL_HASH))
    else
      && e.out.None? && e.node == n.(roundChanges := e.node.roundChanges)
      && Adds(n.roundChanges, e.node.roundChanges, n.vals, m)
  }

  /** The proposer of the new round repeats its locked block, or else sends its pending one. */
  ghost predicate Repeats(n: Node, e: Effect) {
    if n.IsLocked() then n.prePrepare.Some? && e.out == ProposalOf(e.node, Some(n.prePrepare.value.proposal))
    else e.out == ProposalOf(e.node, n.pending)
  }

  /** The table of answers is the step. */
  lemma StepAnswers(n: Node, ev: Event, o: Oracle)
    requires NodeInv(n)
    ensures Answers(n, ev, o, Step(n, ev, o))
  {
    hide AnswersMsg, HandleMsg, HandleTimeout, HandleRequest, StartNewRound, AdvancesTo, NodeInv;
    match ev {
      case Deliver(m) => if m.from in n.vals { MsgAnswer(n, m, o); }
      case Replay(m) => MsgAnswer(n, m, o);
      case Timeout => TimeoutAnswer(n, o);
      case FinalCommitted => FinalAnswer(n, o);
      case Request(p) => RequestAnswer(n, p);
    }
  }

  lemma MsgAnswer(n: Node, m: Message, o: Oracle)
    requires NodeInv(n)
    ensures AnswersMsg(n, m, o, HandleMsg(n, m, o))
  {
    hide HandlePrePrepare, HandlePrepare, HandleCommit, HandleRoundChange;
    match m {
      case PrePrepareMsg(_, _, _) => PrePrepareAnswer(n, m, o);
      case PrepareMsg(_, _, _) => PrepareAnswer(n, m, o);
      case CommitMsg(_, _, _, _) => CommitAnswer(n, m, o);
      case RoundChangeMsg(_, _, _) => RoundChangeAnswer(n, m, o);
      case Malformed(_) =>
    }
  }

  lemma MemberIsAnswered(n: Node, m: Message, o: Oracle)
    requires NodeInv(n) && m.RoundChangeMsg? && m.from in n.vals
    ensures AnswersAsk(n, m, o, Step(n, Deliver(m), o)) && Step(n, Deliver(m), o).call.None?
  {
    hide Step, NodeInv, AnswersAsk;
    StepAnswers(n, Deliver(m), o);
  }

  /** What messages other than ROUND CHANGEs can do to the node's place, and the rounds they make it ask for. */
  lemma OthersStayOrWait(n: Node, m: Message, o: Oracle, e: Effect)
    requires AnswersMsg(n, m, o, e) && !m.RoundChangeMsg?
    ensures e.node.sequence == n.sequence
    ensures e.node.waiting || (!n.waiting && e.node.round == n.round)
    ensures e.out.Some? && e.out.value.RoundChangeMsg? <==>
            || (Offered(n, m, o) && n.IsLocked() && m.proposal.hash != n.locked)
            || (Decides(n, m) && !o.commitOk)
    ensures e.out.Some? && e.out.value.RoundChangeMsg? ==>
              && e.out == Some(RoundChangeMsg(n.id, View(n.sequence, n.round + 1), NIL_HASH))
              && e.node.CurrentView() == View(n.sequence, n.round + 1) && e.node.waiting
    ensures e.call.Some? <==> Decides(n, m)
    ensures e.call.Some? ==>
              m.CommitMsg? && HandsOver(n, if m.from in n.vals then n.commits[m.from := m] else n.commits, o, e)
  {
    hide ReachThreshold, KeepsFrom;
  }

  lemma OthersSendSupport(n: Node, m: Message, o: Oracle, e: Effect)
    requires AnswersMsg(n, m, o, e) && !m.RoundChangeMsg?
    ensures e.out.Some? && e.out.value.PrepareMsg? <==> Offered(n, m, o) && !n.IsLocked()
    ensures e.out.Some? && e.out.value.CommitMsg? <==>
            || KnownOld(n, m, o)
            || (Offered(n, m, o) && n.IsLocked() && m.proposal.hash == n.locked)
            || Completes(n, m)
    ensures e.out.Some? ==> !e.out.value.PrePrepareMsg?
  {
    hide ReachThreshold, KeepsFrom, WaitsIn;
  }

  lemma KindsDiffer(n: Node, m: Message, o: Oracle)
    requires m.RoundChangeMsg?
    ensures !KnownOld(n, m, o) && !Offered(n, m, o) && !Completes(n, m)
  {
  }

  lemma AsksMoveOn(n: Node, m: Message, o: Oracle, e: Effect)
    requires AnswersMsg(n, m, o, e) && m.RoundChangeMsg?
    ensures e.node.sequence != n.sequence <==> CallsRound(n, m) && Behind(n, o)
    ensures CallsRound(n, m) && Behind(n, o) ==> AdvancesTo(n, e.node, o) && e.out.None?
    ensures e.node.sequence == n.sequence && !e.node.waiting && (n.waiting || e.node.round != n.round) <==>
            CallsRound(n, m) && UpToDate(n, o) && m.view.round > 0
    ensures CallsRound(n, m) && UpToDate(n, o) && m.view.round > 0 ==>
              BeginsIn(n, e.node, m.view.round, o) && Repeats(n, e)
    ensures e.out.Some? && e.out.value.RoundChangeMsg? <==> Joins(n, m)
    ensures Joins(n, m) ==>
              && e.out == Some(RoundChangeMsg(n.id, View(n.sequence, m.view.round), NIL_HASH))
              && e.node.CurrentView() == View(n.sequence, m.view.round) && e.node.waiting && m.view.round > n.round
    ensures e.call.None? && (e.out.Some? ==> e.out.value.RoundChangeMsg? || e.out.value.PrePrepareMsg?)
    ensures e.out.Some? && e.out.value.PrePrepareMsg? ==> CallsRound(n, m) && UpToDate(n, o) && m.view.round > 0
  {
    hide ReachThreshold, FaultTolerantNum, ProposesByPosition, Adds, AddsAndKeeps;
  }

  /** A PREPARE is sent exactly for a block offered to an unlocked node. */
  lemma SendsPrepareExactly(n: Node, ev: Event, o: Oracle)
    requires NodeInv(n)
    ensures var out := Step(n, ev, o).out;
            out.Some? && out.value.PrepareMsg? <==> Heard(n, ev) && Offered(n, ev.msg, o) && !n.IsLocked()
  {
    hide Step, AnswersMsg, AdvancesTo, WaitsIn, KeepsFrom, KnownOld, Offered, Completes;
    StepAnswers(n, ev, o);
    if Heard(n, ev) {
      if ev.msg.RoundChangeMsg? {
        AsksMoveOn(n, ev.msg, o, Step(n, ev, o));
        KindsDiffer(n, ev.msg, o);
      } else {
        OthersSendSupport(n, ev.msg, o, Step(n, ev, o));
      }
    }
  }

  /**
   * A COMMIT is sent exactly for a known block of a past view, for the locked block when it is
   * offered again, and for the accepted block when a PREPARE completes the threshold.
   */
  lemma SendsCommitExactly(n: Node, ev: Event, o: Oracle)
    requires NodeInv(n)
    ensures var out := Step(n, ev, o).out;
            out.Some? && out.value.CommitMsg? <==>
              Heard(n, ev) &&
              (|| KnownOld(n, ev.msg, o)
               || (Offered(n, ev.msg, o) && n.IsLocked() && ev.msg.proposal.hash == n.locked)
               || Completes(n, ev.msg))
  {
    hide Step, AnswersMsg, AdvancesTo, WaitsIn, KeepsFrom, KnownOld, Offered, Completes;
    StepAnswers(n, ev, o);
    if Heard(n, ev) {
      if ev.msg.RoundChangeMsg? {
        AsksMoveOn(n, ev.msg, o, Step(n, ev, o));
        KindsDiffer(n, ev.msg, o);
      } else {
        OthersSendSupport(n, ev.msg, o, Step(n, ev, o));
      }
    }
  }

  /** A locked node that is offered a block of its view commits to it again or gives the round up. */
  lemma LockedNodeAnswersOffer(n: Node, ev: Event, o: Oracle)
    requires NodeInv(n) && n.IsLocked() && !n.waiting && n.phase == AcceptRequest
    ensures var e, offered := Step(n, ev, o), Heard(n, ev) && Offered(n, ev.msg, o);
            && (e.node.phase == Prepared && !e.node.waiting <==> offered && ev.msg.proposal.hash == n.locked)
            && (offered && ev.msg.proposal.hash == n.locked ==>
                  && e.out == Some(CommitMsg(n.id, n.CurrentView(), n.locked, Some(Seal(n.id, n.locked))))
                  && e.node.locked == n.locked && e.node.CurrentView() == n.CurrentView())
            && (!ev.Timeout? ==>
                  (e.out.Some? && e.out.value.RoundChangeMsg? <==> offered && ev.msg.proposal.hash != n.locked))
            && (offered && ev.msg.proposal.hash != n.locked ==>
                  && e.out == Some(RoundChangeMsg(n.id, View(n.sequence, n.round + 1), NIL_HASH))
                  && e.node.CurrentView() == View(n.sequence, n.round + 1) && e.node.waiting
                  && e.node.locked == n.locked)
  {
    hide Step, ReachThreshold;
    StepAnswers(n, ev, o);
  }

  /**
   * The backend is called exactly when a COMMIT for the accepted block arrives at a node that has not
   * committed, and with its sender a threshold of members has. A node the backend agrees with ends
   * committed and locked, from PrePrepared as from Prepared.
   */
  lemma CallsBackendExactly(n: Node, ev: Event, o: Oracle)
    requires NodeInv(n)
    ensures var e := Step(n, ev, o);
            && (e.call.Some? <==> Heard(n, ev) && Decides(n, ev.msg))
            && (e.call.Some? ==>
                  && e.call.value.view == n.CurrentView() && e.call.value.proposal == n.prePrepare.value.proposal
                  && e.call.value.commits.Keys == WithMember(n.commits.Keys, n.vals, ev.msg.from)
                  && e.call.value.accepted == o.commitOk)
            && (e.call.Some? && o.commitOk ==>
                  && e.node == n.(commits := e.call.value.commits, phase := Committed, locked := Subject(n))
                  && e.out.None?)
  {
    hide Step, AnswersMsg, Decides, AdvancesTo, WaitsIn, KeepsFrom;
    StepAnswers(n, ev, o);
    if Heard(n, ev) {
      if ev.msg.RoundChangeMsg? {
        AsksMoveOn(n, ev.msg, o, Step(n, ev, o));
        OnlyCommitsDecide(n, ev.msg);
      } else {
        OthersStayOrWait(n, ev.msg, o, Step(n, ev, o));
      }
    }
  }

  lemma OnlyCommitsDecide(n: Node, m: Message)
    ensures Decides(n, m) ==> m.CommitMsg? && !Joins(n, m) && !CallsRound(n, m)
    ensures Joins(n, m) || CallsRound(n, m) ==> m.RoundChangeMsg?
    ensures forall o :: Offered(n, m, o) ==> m.PrePrepareMsg?
  {
  }

  /** When a node asks for a round, and for which. */
  ghost predicate AsksFor(n: Node, ev: Event, o: Oracle, r: nat) {
    || (ev.Timeout? && JoinsOnTimeout(n) && Joinable(n, r) && forall k: nat :: Joinable(n, k) ==> k <= r)
    || (ev.Timeout? && !JoinsOnTimeout(n) && !Behind(n, o) && r == n.round + 1)
    || (Heard(n, ev) && Offered(n, ev.msg, o) && n.IsLocked() && ev.msg.proposal.hash != n.locked && r == n.round + 1)
    || (Heard(n, ev) && Decides(n, ev.msg) && !o.commitOk && r == n.round + 1)
    || (Heard(n, ev) && Joins(n, ev.msg) && r == ev.msg.view.round)
  }

  /**
   * A ROUND CHANGE for round r is sent exactly by a timeout, by a locked node offered another block,
   * after a refused commit, and by a waiting node when f + 1 members ask for r; the node then waits there.
   */
  lemma AsksForRoundExactly(n: Node, ev: Event, o: Oracle, r: nat)
    requires NodeInv(n)
    ensures var e := Step(n, ev, o);
            && (e.out == Some(RoundChangeMsg(n.id, View(n.sequence, r), NIL_HASH)) <==> AsksFor(n, ev, o, r))
            && (e.out.Some? && e.out.value.RoundChangeMsg? ==> AsksFor(n, ev, o, e.out.value.view.round))
            && (AsksFor(n, ev, o, r) ==> e.node.CurrentView() == View(n.sequence, r) && e.node.waiting && r > n.round)
  {
    hide Step, AnswersMsg, Decides, Joins, CallsRound, Offered, AdvancesTo, Joinable, KeepsFrom;
    StepAnswers(n, ev, o);
    if Heard(n, ev) {
      OnlyCommitsDecide(n, ev.msg);
      if ev.msg.RoundChangeMsg? {
        AsksMoveOn(n, ev.msg, o, Step(n, ev, o));
        if Joins(n, ev.msg) { JoinsAbove(n, ev.msg); }
      } else {
        OthersStayOrWait(n, ev.msg, o, Step(n, ev, o));
      }
    }
    if ev.Timeout? { JoinableAbove(n); }
  }

  lemma JoinsAbove(n: Node, m: Message)
    requires Joins(n, m)
    ensures m.view == View(n.sequence, m.view.round) && m.view.round > n.round
  {
  }

  lemma JoinableAbove(n: Node)
    ensures forall r: nat :: Joinable(n, r) ==> r > n.round
  {
  }

  /** A waiting node follows a call for a later round exactly at f + 1 members, when they are no threshold. */
  lemma WaitingNodeJoinsExactly(n: Node, ev: Event, o: Oracle)
    requires NodeInv(n) && n.waiting && !ev.Timeout?
    ensures var out := Step(n, ev, o).out;
            && (out.Some? && out.value.RoundChangeMsg? <==> Heard(n, ev) && Joins(n, ev.msg))
            && (Heard(n, ev) && Joins(n, ev.msg) ==> out == Some(RoundChangeMsg(n.id, ev.msg.view, NIL_HASH)))
  {
    hide Step, ReachThreshold, FaultTolerantNum;
    StepAnswers(n, ev, o);
  }

  /** When the node learns that the chain has its height. */
  ghost predicate LearnsOfBlock(n: Node, ev: Event, o: Oracle) {
    Behind(n, o) &&
    (|| ev.FinalCommitted? || (ev.Timeout? && !JoinsOnTimeout(n))
     || (Heard(n, ev) && CallsRound(n, ev.msg)))
  }

  /**
   * The sequence changes exactly when the node learns of a block at or above its height; it then
   * begins the one after it with nothing left of the old and with the proposer by position.
   */
  lemma AdvancesExactly(n: Node, ev: Event, o: Oracle)
    requires NodeInv(n)
    ensures var e := Step(n, ev, o);
            && (e.node.sequence != n.sequence <==> LearnsOfBlock(n, ev, o))
            && (LearnsOfBlock(n, ev, o) ==> AdvancesTo(n, e.node, o) && e.out.None?)
  {
    hide Step, AnswersMsg, Decides, Joins, CallsRound, Offered, Joinable, ProposesByPosition;
    StepAnswers(n, ev, o);
    if Heard(n, ev) {
      OnlyCommitsDecide(n, ev.msg);
      if ev.msg.RoundChangeMsg? {
        AsksMoveOn(n, ev.msg, o, Step(n, ev, o));
      } else {
        OthersStayOrWait(n, ev.msg, o, Step(n, ev, o));
      }
    }
  }

  /** A node keeps its proposer until it changes sequences or begins a round. */
  lemma KeepsProposer(n: Node, ev: Event, o: Oracle)
    requires NodeInv(n) && !LearnsOfBlock(n, ev, o) && !RoundCalled(n, ev, o)
    ensures var n' := Step(n, ev, o).node;
            n'.proposer == n.proposer && n'.vals == n.vals && n'.policy == n.policy && n'.id == n.id
  {
    hide Step, AnswersMsg, CallsRound, Joinable, KeepsFrom;
    StepAnswers(n, ev, o);
    if Heard(n, ev) { MessageKeepsProposer(n, ev.msg, o, Step(n, ev, o)); }
  }

  lemma MessageKeepsProposer(n: Node, m: Message, o: Oracle, e: Effect)
    requires AnswersMsg(n, m, o, e)
    requires m.RoundChangeMsg? && CallsRound(n, m) ==> !Behind(n, o) && !(UpToDate(n, o) && m.view.round > 0)
    ensures e.node.proposer == n.proposer && e.node.vals == n.vals && e.node.policy == n.policy && e.node.id == n.id
  {
    hide ReachThreshold, FaultTolerantNum, CallsRound, KeepsFrom, Adds, AddsAndKeeps, Decides, Completes, Offered;
  }

  /** A threshold calls a round of the sequence the chain leaves open. */
  ghost predicate RoundCalled(n: Node, ev: Event, o: Oracle) {
    Heard(n, ev) && CallsRound(n, ev.msg) && UpToDate(n, o) && ev.msg.view.round > 0
  }

  /**
   * A node becomes active in another round of its sequence, or in the one it waits in, exactly when a
   * threshold calls it; its proposer then repeats its locked block, or else sends its pending one.
   */
  lemma BeginsRoundExactly(n: Node, ev: Event, o: Oracle)
    requires NodeInv(n)
    ensures var e := Step(n, ev, o);
            && (e.node.sequence == n.sequence && !e.node.waiting && (n.waiting || e.node.round != n.round)
                <==> RoundCalled(n, ev, o))
            && (RoundCalled(n, ev, o) ==> BeginsIn(n, e.node, ev.msg.view.round, o) && Repeats(n, e))
  {
    hide Step, AnswersMsg, Decides, Joins, CallsRound, Offered, Joinable, ProposesByPosition;
    StepAnswers(n, ev, o);
    if Heard(n, ev) {
      OnlyCommitsDecide(n, ev.msg);
      if ev.msg.RoundChangeMsg? {
        AsksMoveOn(n, ev.msg, o, Step(n, ev, o));
      } else {
        OthersStayOrWait(n, ev.msg, o, Step(n, ev, o));
      }
    }
  }

  lemma BeginsAtOwnHeight(n: Node, n': Node, r: nat, o: Oracle)
    requires o.last.Some? && BeginsIn(n, n', r, o)
    ensures n'.sequence == n.sequence && n'.id == n.id
  {
  }

  /**
   * A PRE-PREPARE is sent exactly on a request, or on beginning a round, by the proposer with a block
   * of its height.
   */
  lemma ProposesExactly(n: Node, ev: Event, o: Oracle, p: Proposal)
    requires NodeInv(n)
    ensures var e := Step(n, ev, o);
            e.out.Some? && e.out.value.PrePrepareMsg? && e.out.value.proposal == p <==>
              p.height == n.sequence &&
              (|| (ev == Request(p) && n.phase == AcceptRequest && !n.waiting && n.IsProposer(n.id))
               || (RoundCalled(n, ev, o) && e.node.IsProposer(n.id)
                   && (if n.IsLocked() then n.prePrepare.value.proposal == p else n.pending == Some(p))))
  {
    hide Step, AnswersMsg, AdvancesTo, WaitsIn, KeepsFrom, CallsRound, BeginsIn;
    StepAnswers(n, ev, o);
    if Heard(n, ev) {
      OnlyCommitsDecide(n, ev.msg);
      if ev.msg.RoundChangeMsg? {
        AsksMoveOn(n, ev.msg, o, Step(n, ev, o));
        if RoundCalled(n, ev, o) { BeginsAtOwnHeight(n, Step(n, ev, o).node, ev.msg.view.round, o); }
      } else {
        OthersSendSupport(n, ev.msg, o, Step(n, ev, o));
      }
    }
  }

  // ----- errors -----

  /** The error a message is answered with. */
  ghost function ErrorOf(n: Node, m: Message, o: Oracle): Err {
    match m
    case Malformed(_) => InvalidMessage
    case RoundChangeMsg(_, v, _) =>
      if v.sequence > n.sequence then FutureMessage
      else if v.Before(n.CurrentView()) then OldMessage
      else if m.from !in n.vals then Unauthorized
      else if CallsRound(n, m) || (n.waiting && |Callers(n, m)| == FaultTolerantNum(|n.vals|) + 1) then Ok
      else if v.round > n.round then Ignored
      else Ok
    case PrePrepareMsg(_, v, _) =>
      if v.Before(n.CurrentView()) then (if KnownOld(n, m, o) then Ok else OldMessage)
      else if v != n.CurrentView() || n.waiting then FutureMessage
      else if !n.IsProposer(m.from) then NotFromProposer
      else if !o.verifyOk then VerifyFailed
      else Ok
    case _ =>
      if m.view.Before(n.CurrentView()) then OldMessage
      else if m.view != n.CurrentView() || n.waiting || n.phase == AcceptRequest then FutureMessage
      else if Supports(n, m) then Ok
      else InconsistentSubject
  }

  /** Every event has the error of this table. */
  lemma ErrorsExactly(n: Node, ev: Event, o: Oracle)
    requires NodeInv(n)
    ensures Step(n, ev, o).err ==
            match ev
            case Deliver(m) => if m.from in n.vals then ErrorOf(n, m, o) else Unauthorized
            case Replay(m) => ErrorOf(n, m, o)
            case Request(p) =>
              if p.height < n.sequence then OldMessage else if p.height > n.sequence then FutureMessage else Ok
            case _ => Ok
  {
    hide HandleMsg, LeaveRound, StartNewRound;
    match ev {
      case Deliver(m) => MsgError(n, m, o);
      case Replay(m) => MsgError(n, m, o);
      case Timeout =>
      case FinalCommitted =>
      case Request(p) => RequestAnswer(n, p);
    }
  }

  lemma MsgError(n: Node, m: Message, o: Oracle)
    requires NodeInv(n)
    ensures HandleMsg(n, m, o).err == ErrorOf(n, m, o)
  {
    hide HandlePrePrepare, HandlePrepare, HandleCommit, HandleRoundChange, CallsRound, KnownOld, Supports;
    match m {
      case PrePrepareMsg(_, _, _) => PrePrepareError(n, m, o);
      case PrepareMsg(_, _, _) => PrepareError(n, m, o);
      case CommitMsg(_, _, _, _) => CommitError(n, m, o);
      case RoundChangeMsg(_, _, _) => RoundChangeError(n, m, o);
      case Malformed(_) =>
    }
  }

  lemma PrePrepareError(n: Node, m: Message, o: Oracle)
    requires m.PrePrepareMsg?
    ensures HandlePrePrepare(n, m, o).err == ErrorOf(n, m, o)
  {
    hide SendRoundChange;
  }

  lemma PrepareError(n: Node, m: Message, o: Oracle)
    requires NodeInv(n) && m.PrepareMsg?
    ensures HandlePrepare(n, m).err == ErrorOf(n, m, o)
  {
    hide PrepareIfReady;
  }

  lemma CommitError(n: Node, m: Message, o: Oracle)
    requires NodeInv(n) && m.CommitMsg?
    ensures HandleCommit(n, m, o).err == ErrorOf(n, m, o)
  {
    hide CommitIfReady;
  }

  lemma RoundChangeError(n: Node, m: Message, o: Oracle)
    requires m.RoundChangeMsg?
    ensures HandleRoundChange(n, m, o).err == ErrorOf(n, m, o)
  {
    hide StartNewRound, SendRoundChange, AddRoundChange, FaultTolerantNum, ReachThreshold, Adds;
    StoresAsked(n, m);
  }
}
