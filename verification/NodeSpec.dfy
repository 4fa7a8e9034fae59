/**
 * The state of one consensus node and, as a function of that state, what each event does to it.
 * The class in Core.dfy is proved to compute these functions; the theorems are about them.
 */
module NodeSpec {
  import opened Protocol
  import opened Quorum
  import opened Selector

  type MessageMap = map<Id, Message>

  datatype Node = Node(
    id: Id,
    policy: Policy,
    vals: seq<Id>,
    proposer: Option<Id>,
    sequence: nat,
    round: nat,
    waiting: bool,
    phase: Phase,
    prePrepare: Option<PrePrepare>,
    prepares: MessageMap,
    commits: MessageMap,
    locked: Hash,
    pending: Option<Proposal>,
    roundChanges: map<nat, MessageMap>)
  {
    ghost function CurrentView(): View { View(sequence, round) }

    ghost predicate IsLocked() { locked != NIL_HASH }

    ghost predicate IsProposer(who: Id) { who in vals && proposer == Some(who) }

    ghost function Reaches(num: int): bool { ReachThreshold(|vals|, num) }
  }

  /** backend.LastProposal(): the height of the newest block and who proposed it. */
  datatype Last = Last(height: nat, proposer: Id)

  /**
   * What the backend answers during one step. `vals` is backend.Validators(lastProposal);
   * `oldProposer` and `hasProposal` are the two tests made on an outdated PRE-PREPARE.
   */
  datatype Oracle = Oracle(
    last: Option<Last>,
    vals: seq<Id>,
    verifyOk: bool,
    commitOk: bool,
    oldProposer: bool,
    hasProposal: bool)

  /** A call of backend.Commit: where the node stood, the block, the COMMITs it held, and the answer. */
  datatype CommitCall = CommitCall(view: View, proposal: Proposal, commits: MessageMap, accepted: bool)

  /** A step sends at most one message and calls backend.Commit at most once. */
  datatype Effect = Effect(node: Node, out: Option<Message>, call: Option<CommitCall>, err: Err)

  datatype Event =
    | Deliver(msg: Message)       // from the network or from the node itself: decodeMsg, then handleMsg
    | Replay(msg: Message)        // from the backlog: handleMsg alone
    | Timeout
    | FinalCommitted
    | Request(proposal: Proposal)

  ghost function Stay(n: Node, err: Err): Effect {
    Effect(n, None, None, err)
  }

  // ----- the round-change set -----

  /** Add: the set of the round's key is created even when the sender is refused. */
  ghost function AddRoundChange(rcs: map<nat, MessageMap>, vals: seq<Id>, m: Message): map<nat, MessageMap>
    requires m.RoundChangeMsg?
  {
    var key := Low64(m.view.round);
    var held := if key in rcs then rcs[key] else map[];
    rcs[key := if m.from in vals then held[m.from := m] else held]
  }

  /** Clear: drop the empty sets and those of smaller rounds. */
  ghost function ClearBelow(rcs: map<nat, MessageMap>, round: nat): map<nat, MessageMap> {
    map k | k in rcs && rcs[k] != map[] && k >= Low64(round) :: rcs[k]
  }

  ghost predicate HasAtLeast(rcs: map<nat, MessageMap>, num: int, k: nat) {
    k in rcs && |rcs[k]| >= num
  }

  /** MaxRound: the greatest key holding at least `num` messages, read as an int64. */
  ghost predicate IsMaxRound(rcs: map<nat, MessageMap>, num: int, r: Option<int>) {
    match r
    case None => forall k :: !HasAtLeast(rcs, num, k)
    case Some(x) =>
      && (exists k :: HasAtLeast(rcs, num, k) && AsInt64(k) == x)
      && (forall k :: HasAtLeast(rcs, num, k) ==> AsInt64(k) <= x)
  }

  lemma MaxRoundIsUnique(rcs: map<nat, MessageMap>, num: int, r: Option<int>, r': Option<int>)
    requires IsMaxRound(rcs, num, r) && IsMaxRound(rcs, num, r')
    ensures r == r'
  {
  }

  lemma {:induction false} MaxRoundExists(rcs: map<nat, MessageMap>, num: int) returns (r: Option<int>)
    ensures IsMaxRound(rcs, num, r)
    decreases |rcs|
  {
    if k :| k in rcs {
      var rest := rcs - {k};
      assert rest.Keys == rcs.Keys - {k};
      r := MaxRoundExists(rest, num);
      assert forall j :: HasAtLeast(rcs, num, j) <==> HasAtLeast(rest, num, j) || (j == k && HasAtLeast(rcs, num, k));
      if HasAtLeast(rcs, num, k) && (r.None? || r.value < AsInt64(k)) {
        r := Some(AsInt64(k));
      }
    } else {
      r := None;
    }
  }

  ghost function MaxRound(rcs: map<nat, MessageMap>, num: int): (r: Option<int>)
    ensures IsMaxRound(rcs, num, r)
  {
    assert exists r :: IsMaxRound(rcs, num, r) by {
      var r := MaxRoundExists(rcs, num);
    }
    var r :| IsMaxRound(rcs, num, r);
    r
  }

  // ----- rounds -----

  /** updateRoundState with roundChange set: a fresh round state that keeps a lock and its proposal. */
  ghost function EnterRound(n: Node, round: nat): Node {
    n.(round := round,
       prePrepare := if n.IsLocked() then n.prePrepare else None,
       prepares := map[], commits := map[])
  }

  ghost function NewSequence(n: Node, o: Oracle): Node
    requires o.last.Some?
  {
    n.(sequence := o.last.value.height + 1, round := 0, vals := o.vals,
       proposer := Pick(n.policy, o.vals, o.last.value.proposer, 0),
       waiting := false, phase := AcceptRequest,
       prePrepare := None, prepares := map[], commits := map[],
       locked := NIL_HASH, pending := None, roundChanges := map[])
  }

  ghost function ActivateRound(n: Node, round: nat, lastProposer: Id): Node {
    EnterRound(n, round).(
      proposer := Pick(n.policy, n.vals, lastProposer, Low64(round)),
      waiting := false, phase := AcceptRequest, roundChanges := map[])
  }

  /** SendPrePrepare: nothing is sent unless the heights match and the node is the proposer. */
  ghost function PrePrepareFor(n: Node, p: Proposal): Option<Message> {
    if n.sequence == p.height && n.IsProposer(n.id) then Some(PrePrepareMsg(n.id, n.CurrentView(), p)) else None
  }

  /** What the proposer of a new round sends: its locked block first, else the pending one. */
  ghost function Reproposal(n: Node): Option<Message> {
    if !n.IsProposer(n.id) then None
    else if n.IsLocked() then
      (if n.prePrepare.Some? then PrePrepareFor(n, n.prePrepare.value.proposal) else None)
    else if n.pending.Some? then PrePrepareFor(n, n.pending.value)
    else None
  }

  ghost function StartNewRound(n: Node, round: nat, o: Oracle): (e: Effect)
    ensures e.err == Ok && e.call.None?
  {
    if o.last.None? then Stay(n, Ok)
    else if o.last.value.height >= n.sequence then Stay(NewSequence(n, o), Ok)
    else if o.last.value.height + 1 == n.sequence && round != 0 && round >= n.round then
      var n' := ActivateRound(n, round, o.last.value.proposer);
      Effect(n', Reproposal(n'), None, Ok)
    else Stay(n, Ok)
  }

  ghost function CatchUpRound(n: Node, round: nat): Node {
    EnterRound(n, round).(waiting := true, roundChanges := ClearBelow(n.roundChanges, round))
  }

  ghost function SendRoundChange(n: Node, round: nat): (e: Effect)
    ensures e.err == Ok && e.call.None?
  {
    if n.round >= round then Stay(n, Ok)
    else
      var n' := CatchUpRound(n, round);
      Effect(n', Some(RoundChangeMsg(n.id, n'.CurrentView(), NIL_HASH)), None, Ok)
  }

  ghost function SendNextRoundChange(n: Node): (e: Effect)
    ensures e.err == Ok && e.call.None?
  {
    SendRoundChange(n, n.round + 1)
  }

  // ----- handlers -----

  /** finalizeMessage: a COMMIT carries a seal over the accepted proposal, whatever its digest. */
  ghost function SealOf(n: Node): Option<Seal> {
    if n.prePrepare.Some? then Some(Seal(n.id, n.prePrepare.value.proposal.hash)) else None
  }

  ghost function CommitFor(n: Node, view: View, digest: Hash): Message {
    CommitMsg(n.id, view, digest, SealOf(n))
  }

  ghost function HandlePrePrepare(n: Node, m: Message, o: Oracle): Effect
    requires m.PrePrepareMsg?
  {
    var verdict := CheckMessage(m, n.CurrentView(), n.waiting, n.phase);
    var hash := m.proposal.hash;
    if verdict == OldMessage && o.oldProposer && o.hasProposal then
      Effect(n, Some(CommitFor(n, m.view, hash)), None, Ok)
    else if verdict != Ok then Stay(n, verdict)
    else if !n.IsProposer(m.from) then Stay(n, NotFromProposer)
    else if !o.verifyOk then Stay(n, VerifyFailed)
    else if n.phase != AcceptRequest then Stay(n, Ok)
    else
      var accepted := n.(prePrepare := Some(PrePrepare(m.view, m.proposal)));
      if !n.IsLocked() then
        Effect(accepted.(phase := PrePrepared), Some(PrepareMsg(n.id, n.CurrentView(), hash)), None, Ok)
      else if hash == n.locked then
        Effect(accepted.(phase := Prepared), Some(CommitFor(accepted, n.CurrentView(), hash)), None, Ok)
      else SendNextRoundChange(n)
  }

  /** Subject(): the view and digest that PREPAREs and COMMITs must repeat. */
  ghost predicate MatchesSubject(n: Node, view: View, digest: Hash) {
    n.prePrepare.Some? && view == n.CurrentView() && digest == n.prePrepare.value.proposal.hash
  }

  ghost function LockHash(n: Node): Node {
    if n.prePrepare.Some? then n.(locked := n.prePrepare.value.proposal.hash) else n
  }

  ghost function AddTo(ms: MessageMap, vals: seq<Id>, m: Message): MessageMap {
    if m.from in vals then ms[m.from := m] else ms
  }

  ghost function PrepareOrCommitSize(n: Node): nat {
    |n.prepares.Keys + n.commits.Keys|
  }

  /** Lock, move to Prepared and send the COMMIT, if the lock or the threshold allows it. */
  ghost function PrepareIfReady(a: Node, digest: Hash): (e: Effect)
    requires a.prePrepare.Some?
    ensures e.err == Ok
  {
    if ((a.IsLocked() && digest == a.locked) || a.Reaches(PrepareOrCommitSize(a)))
       && a.phase.Rank() < Prepared.Rank() then
      var n' := LockHash(a).(phase := Prepared);
      Effect(n', Some(CommitFor(n', n'.CurrentView(), n'.prePrepare.value.proposal.hash)), None, Ok)
    else Stay(a, Ok)
  }

  ghost function HandlePrepare(n: Node, m: Message): Effect
    requires m.PrepareMsg?
  {
    var verdict := CheckMessage(m, n.CurrentView(), n.waiting, n.phase);
    if verdict != Ok then Stay(n, verdict)
    else if !MatchesSubject(n, m.view, m.digest) then Stay(n, InconsistentSubject)
    else PrepareIfReady(n.(prepares := AddTo(n.prepares, n.vals, m)), m.digest)
  }

  /** commit(): hand the block over; a refusal drops the lock and asks for the next round. */
  ghost function Commit(n: Node, o: Oracle): (e: Effect)
    ensures e.err == Ok
  {
    var c := n.(phase := Committed);
    if n.prePrepare.None? then Stay(c, Ok)
    else
      var call := CommitCall(c.CurrentView(), c.prePrepare.value.proposal, c.commits, o.commitOk);
      if o.commitOk then Effect(c, None, Some(call), Ok)
      else SendNextRoundChange(c.(locked := NIL_HASH)).(call := Some(call))
  }

  ghost function CommitIfReady(a: Node, o: Oracle): (e: Effect)
    ensures e.err == Ok
  {
    if a.Reaches(|a.commits|) && a.phase.Rank() < Committed.Rank() then Commit(LockHash(a), o)
    else Stay(a, Ok)
  }

  ghost function HandleCommit(n: Node, m: Message, o: Oracle): Effect
    requires m.CommitMsg?
  {
    var verdict := CheckMessage(m, n.CurrentView(), n.waiting, n.phase);
    if verdict != Ok then Stay(n, verdict)
    else if !MatchesSubject(n, m.view, m.digest) then Stay(n, InconsistentSubject)
    else CommitIfReady(n.(commits := AddTo(n.commits, n.vals, m)), o)
  }

  ghost function HandleRoundChange(n: Node, m: Message, o: Oracle): Effect
    requires m.RoundChangeMsg?
  {
    var verdict := CheckMessage(m, n.CurrentView(), n.waiting, n.phase);
    if verdict != Ok then Stay(n, verdict)
    else
      var a := n.(roundChanges := AddRoundChange(n.roundChanges, n.vals, m));
      var num := |a.roundChanges[Low64(m.view.round)]|;
      var higher := n.round < m.view.round;
      if m.from !in n.vals then Stay(a, Unauthorized)
      else if n.Reaches(num) && (n.waiting || higher) then StartNewRound(a, m.view.round, o)
      else if n.waiting && num == FaultTolerantNum(|n.vals|) + 1 then
        (if higher then SendRoundChange(a, m.view.round) else Stay(a, Ok))
      else Stay(a, if higher then Ignored else Ok)
  }

  ghost function HandleMsg(n: Node, m: Message, o: Oracle): Effect {
    match m
    case PrePrepareMsg(_, _, _) => HandlePrePrepare(n, m, o)
    case PrepareMsg(_, _, _) => HandlePrepare(n, m)
    case CommitMsg(_, _, _, _) => HandleCommit(n, m, o)
    case RoundChangeMsg(_, _, _) => HandleRoundChange(n, m, o)
    case Malformed(_) => Stay(n, InvalidMessage)
  }

  /** The timeout handler up to its choice: the lock and the pending request are dropped. */
  ghost function Released(n: Node): Node {
    n.(locked := NIL_HASH, pending := None)
  }

  /** Follow the chain if it is ahead, else ask for the next round. */
  ghost function MoveOn(u: Node, o: Oracle): (e: Effect)
    ensures e.err == Ok && e.call.None?
  {
    if o.last.Some? && o.last.value.height >= u.sequence then StartNewRound(u, 0, o) else SendNextRoundChange(u)
  }

  /** Join the highest round that f + 1 validators asked for, or move on. */
  ghost function LeaveRound(u: Node, o: Oracle): (e: Effect)
    ensures e.err == Ok && e.call.None?
  {
    var max := MaxRound(u.roundChanges, FaultTolerantNum(|u.vals|) + 1);
    if !u.waiting && max.Some? && max.value > u.round then SendRoundChange(u, max.value)
    else MoveOn(u, o)
  }

  ghost function HandleTimeout(n: Node, o: Oracle): Effect {
    LeaveRound(Released(n), o)
  }

  ghost function HandleRequest(n: Node, p: Proposal): Effect {
    if n.sequence > p.height then Stay(n, OldMessage)
    else if n.sequence < p.height then Stay(n, FutureMessage)
    else if n.phase != AcceptRequest then Stay(n, Ok)
    else
      var n' := n.(pending := Some(p));
      Effect(n', if n.waiting then None else PrePrepareFor(n', p), None, Ok)
  }

  /** One turn of handleLoop. */
  ghost function Step(n: Node, ev: Event, o: Oracle): Effect {
    match ev
    case Deliver(m) => if m.from in n.vals then HandleMsg(n, m, o) else Stay(n, Unauthorized)
    case Replay(m) => HandleMsg(n, m, o)
    case Timeout => HandleTimeout(n, o)
    case FinalCommitted => StartNewRound(n, 0, o)
    case Request(p) => HandleRequest(n, p)
  }

  /** Start(): the node as it stands after StartNewRound(0) on a nil round state. */
  ghost function Boot(id: Id, policy: Policy, last: Last, vals: seq<Id>): Node {
    Node(id, policy, vals, Pick(policy, vals, last.proposer, 0), last.height + 1, 0, false, AcceptRequest,
         None, map[], map[], NIL_HASH, None, map[])
  }
}
