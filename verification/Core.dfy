/** The consensus node as the engine runs it: one object whose handlers update its fields. */
module CoreEngine {
  import opened Protocol
  import opened Quorum
  import opened Selector
  import Spec = NodeSpec
  import opened MessageSets
  import opened RoundStates

  type Oracle = Spec.Oracle
  type Effect = Spec.Effect

  /** The log after an optional entry. */
  ghost function Append<T>(log: seq<T>, x: Option<T>): seq<T> {
    if x.Some? then log + [x.value] else log
  }

  function SealIn(m: Message): Option<Seal> {
    if m.CommitMsg? then m.seal else None
  }

  ghost predicate SealsFrom(seals: seq<Option<Seal>>, list: seq<Message>) {
    |seals| == |list| && forall i :: 0 <= i < |list| ==> seals[i] == SealIn(list[i])
  }

  /** The seals are those of the stored COMMITs, one per sender, in any order. */
  ghost predicate SealsOf(seals: seq<Option<Seal>>, commits: Spec.MessageMap) {
    exists list :: |list| == |commits| && Lists(list, commits) && SealsFrom(seals, list)
  }

  /** Every call of backend.Commit came with the seals of the COMMITs held then. */
  ghost predicate Sealed(submitted: seq<seq<Option<Seal>>>, calls: seq<Spec.CommitCall>) {
    |submitted| == |calls| && forall i :: 0 <= i < |calls| ==> SealsOf(submitted[i], calls[i].commits)
  }

  lemma SealedAppend(
    submitted: seq<seq<Option<Seal>>>, calls: seq<Spec.CommitCall>, seals: seq<Option<Seal>>, call: Spec.CommitCall)
    requires Sealed(submitted, calls) && SealsOf(seals, call.commits)
    ensures Sealed(submitted + [seals], calls + [call])
  {
    hide SealsOf;
  }

  class Core {
    const peerId: Id
    const policy: Policy
    var valSet: seq<Id>
    var proposer: Option<Id>
    var state: Phase
    var waitingForRoundChange: bool
    var current: RoundState
    var roundChangeSet: RoundChangeSet

    // what the node has handed to the network and to the backend
    var sent: seq<Message>
    var calls: seq<Spec.CommitCall>
    var submitted: seq<seq<Option<Seal>>>

    ghost function Repr(): set<object>
      reads this, current
    {
      {this, current, current.prepares, current.commits, roundChangeSet}
    }

    ghost predicate Valid()
      reads this, Repr()
    {
      && current.Valid()
      && current.prepares.valSet == valSet && roundChangeSet.valSet == valSet
      && Sealed(submitted, calls)
    }

    /** The value the theorems speak about. */
    ghost function Model(): Spec.Node
      reads this, Repr()
    {
      Spec.Node(peerId, policy, valSet, proposer, current.sequence, current.round, waitingForRoundChange, state,
                current.prePrepare, current.prepares.messages, current.commits.messages, current.lockedHash,
                current.pendingRequest, roundChangeSet.roundChanges)
    }

    /** The object went from its old model to the node of the effect, with the messages and calls of the effect. */
    twostate predicate Performed(e: Effect)
      reads this, Repr()
    {
      && Valid() && fresh(Repr() - old(Repr()))
      && Model() == e.node && sent == Append(old(sent), e.out) && calls == Append(old(calls), e.call)
    }

    /** NewEngine and Start: StartNewRound(0) on a node without a round state. */
    constructor (peerId: Id, policy: Policy, last: Spec.Last, valSet: seq<Id>)
      ensures Valid() && fresh(Repr() - {this})
      ensures Model() == Spec.Boot(peerId, policy, last, valSet) && sent == [] && calls == []
    {
      this.peerId, this.policy, this.valSet := peerId, policy, valSet;
      proposer := Pick(policy, valSet, last.proposer, 0);
      state, waitingForRoundChange := AcceptRequest, false;
      current := new RoundState(View(last.height + 1, 0), valSet, NIL_HASH, None, None);
      roundChangeSet := new RoundChangeSet(valSet);
      sent, calls, submitted := [], [], [];
    }

    predicate IsProposer(id: Id) reads this {
      id in valSet && proposer == Some(id)
    }

    /** Broadcast: the message goes out signed with the node's name. */
    method Broadcast(msg: Message)
      modifies this`sent
      ensures sent == old(sent) + [msg]
    {
      sent := sent + [msg];
    }

    method BroadcastCommit(view: View, digest: Hash)
      requires Valid()
      modifies this`sent
      ensures sent == old(sent) + [Spec.CommitFor(Model(), view, digest)]
    {
      var seal := if current.prePrepare.Some? then Some(Seal(peerId, current.prePrepare.value.proposal.hash)) else None;
      Broadcast(CommitMsg(peerId, view, digest, seal));
    }

    method SendPrePrepare(p: Proposal)
      requires Valid()
      modifies this`sent
      ensures sent == Append(old(sent), Spec.PrePrepareFor(Model(), p))
    {
      if current.sequence == p.height && IsProposer(peerId) {
        Broadcast(PrePrepareMsg(peerId, current.View(), p));
      }
    }

    /** Replace the round state; a round change keeps a lock, its proposal and the pending request. */
    method UpdateRoundState(view: View, roundChange: bool)
      modifies this`current
      ensures fresh(current) && fresh(current.prepares) && fresh(current.commits)
      ensures current.Valid() && current.prepares.valSet == valSet
      ensures current.round == view.round && current.sequence == view.sequence
      ensures current.prepares.messages == map[] && current.commits.messages == map[]
      ensures current.lockedHash == if roundChange then old(current.lockedHash) else NIL_HASH
      ensures current.prePrepare == if roundChange && old(current.IsHashLocked()) then old(current.prePrepare) else None
      ensures current.pendingRequest == if roundChange then old(current.pendingRequest) else None
    {
      if roundChange {
        if current.IsHashLocked() {
          current := new RoundState(view, valSet, current.lockedHash, current.prePrepare, current.pendingRequest);
        } else {
          current := new RoundState(view, valSet, NIL_HASH, None, current.pendingRequest);
        }
      } else {
        current := new RoundState(view, valSet, NIL_HASH, None, None);
      }
    }

    /** The part of StartNewRound that replaces the round: fresh sets, a new proposer, ready for a request. */
    method BeginRound(view: View, vals: seq<Id>, roundChange: bool, lastProposer: Id)
      requires Valid() && (roundChange ==> vals == valSet && view.sequence == current.sequence)
      modifies this
      ensures Valid() && fresh(Repr() - old(Repr())) && unchanged(`sent) && unchanged(`calls)
      ensures roundChange ==> Model() == Spec.ActivateRound(old(Model()), view.round, lastProposer)
      ensures !roundChange ==>
                Model() == Spec.Boot(peerId, policy, Spec.Last(0, lastProposer), vals).(
                             sequence := view.sequence, round := view.round,
                             proposer := Pick(policy, vals, lastProposer, Low64(view.round)))
    {
      hide Sealed, Pick;
      valSet := vals;
      roundChangeSet := new RoundChangeSet(valSet);
      UpdateRoundState(view, roundChange);
      proposer := Pick(policy, valSet, lastProposer, Low64(view.round));
      waitingForRoundChange := false;
      state := AcceptRequest;
    }

    /** The proposer of a new round repeats its locked block, or sends the pending one. */
    method Repropose()
      requires Valid()
      modifies this`sent
      ensures sent == Append(old(sent), Spec.Reproposal(Model()))
    {
      if IsProposer(peerId) {
        if current.IsHashLocked() {
          if current.prePrepare.Some? {
            SendPrePrepare(current.prePrepare.value.proposal);
          }
        } else if current.pendingRequest.Some? {
          SendPrePrepare(current.pendingRequest.value);
        }
      }
    }

    method StartNewRound(round: nat, o: Oracle)
      requires Valid()
      modifies this
      ensures Performed(Spec.StartNewRound(old(Model()), round, o))
    {
      hide Sealed;
      if o.last.None? {
        return;
      } else if o.last.value.height >= current.sequence {
        BeginRound(View(o.last.value.height + 1, 0), o.vals, false, o.last.value.proposer);
      } else if o.last.value.height + 1 == current.sequence {
        if round == 0 {
          return;
        } else if round < current.round {
          return;
        }
        BeginRound(View(current.sequence, round), valSet, true, o.last.value.proposer);
        Repropose();
      }
    }

    method CatchUpRound(round: nat)
      requires Valid()
      modifies this, roundChangeSet
      ensures Performed(Spec.Stay(Spec.CatchUpRound(old(Model()), round), Ok))
    {
      hide Sealed;
      waitingForRoundChange := true;
      UpdateRoundState(View(current.sequence, round), true);
      roundChangeSet.Clear(round);
    }

    method SendRoundChange(round: nat)
      requires Valid()
      modifies this, roundChangeSet
      ensures Performed(Spec.SendRoundChange(old(Model()), round))
    {
      hide Sealed;
      if current.round >= round {
        return;
      }
      CatchUpRound(round);
      Broadcast(RoundChangeMsg(peerId, current.View(), NIL_HASH));
    }

    method SendNextRoundChange()
      requires Valid()
      modifies this, roundChangeSet
      ensures Performed(Spec.SendNextRoundChange(old(Model())))
    {
      hide Sealed;
      SendRoundChange(current.round + 1);
    }

    method HandlePrePrepare(msg: Message, o: Oracle) returns (err: Err)
      requires Valid() && msg.PrePrepareMsg?
      modifies Repr()
      ensures Performed(Spec.HandlePrePrepare(old(Model()), msg, o))
      ensures err == Spec.HandlePrePrepare(old(Model()), msg, o).err
    {
      hide Sealed, Spec.SendNextRoundChange;
      err := CheckMessage(msg, current.View(), waitingForRoundChange, state);
      if err != Ok {
        if err == OldMessage && o.oldProposer && o.hasProposal {
          BroadcastCommit(msg.view, msg.proposal.hash);
          return Ok;
        }
        return;
      }
      if !IsProposer(msg.from) {
        return NotFromProposer;
      }
      if !o.verifyOk {
        return VerifyFailed;
      }
      if state == AcceptRequest {
        if current.IsHashLocked() {
          if msg.proposal.hash == current.lockedHash {
            current.prePrepare := Some(PrePrepare(msg.view, msg.proposal));
            state := Prepared;
            BroadcastCommit(current.View(), msg.proposal.hash);
          } else {
            SendNextRoundChange();
          }
        } else {
          current.prePrepare := Some(PrePrepare(msg.view, msg.proposal));
          state := PrePrepared;
          Broadcast(PrepareMsg(peerId, current.View(), msg.proposal.hash));
        }
      }
    }

    /** Subject(): whether the view and digest repeat the accepted proposal's. */
    predicate MatchesSubject(view: View, digest: Hash)
      reads this, current
    {
      current.prePrepare.Some? && view == current.View() && digest == current.prePrepare.value.proposal.hash
    }

    method HandlePrepare(msg: Message) returns (err: Err)
      requires Valid() && msg.PrepareMsg?
      modifies Repr()
      ensures Performed(Spec.HandlePrepare(old(Model()), msg))
      ensures err == Spec.HandlePrepare(old(Model()), msg).err
    {
      hide Sealed, Spec.PrepareIfReady;
      err := CheckMessage(msg, current.View(), waitingForRoundChange, state);
      if err != Ok {
        return;
      }
      if !MatchesSubject(msg.view, msg.digest) {
        return InconsistentSubject;
      }
      var _ := current.prepares.Add(msg);
      PrepareIfReady(msg.digest);
    }

    method PrepareIfReady(digest: Hash)
      requires Valid() && current.prePrepare.Some?
      modifies this, current
      ensures Performed(Spec.PrepareIfReady(old(Model()), digest))
    {
      hide Sealed, ReachThreshold, Spec.CommitFor, Spec.LockHash, Spec.PrepareOrCommitSize;
      var size := SupportSize();
      if ((current.IsHashLocked() && digest == current.lockedHash) || ReachThreshold(|valSet|, size))
         && state.Rank() < Prepared.Rank() {
        MoveToPrepared();
      }
    }

    method SupportSize() returns (size: int)
      requires Valid()
      ensures size == Spec.PrepareOrCommitSize(Model())
    {
      hide Sealed;
      size := current.GetPrepareOrCommitSize();
    }

    method MoveToPrepared()
      requires Valid() && current.prePrepare.Some?
      modifies this, current
      ensures Valid() && Repr() == old(Repr()) && calls == old(calls)
      ensures Model() == Spec.LockHash(old(Model())).(phase := Prepared)
      ensures var hash := current.prePrepare.value.proposal.hash;
              sent == old(sent) + [Spec.CommitFor(Model(), Model().CurrentView(), hash)]
    {
      hide Sealed;
      current.LockHash();
      state := Prepared;
      BroadcastCommit(current.View(), current.prePrepare.value.proposal.hash);
    }

    /** The seals of the stored COMMITs, in the order the set lists them. */
    method CommittedSeals() returns (seals: seq<Option<Seal>>)
      requires Valid()
      ensures SealsOf(seals, current.commits.messages)
    {
      var values := current.commits.Values();
      seals := [];
      for i := 0 to |values|
        invariant |seals| == i && forall j :: 0 <= j < i ==> seals[j] == SealIn(values[j])
      {
        seals := seals + [SealIn(values[i])];
      }
      assert SealsFrom(seals, values);
    }

    /** Hand the accepted block and the collected seals to the backend, which takes or refuses it. */
    method Submit(proposal: Proposal, taken: bool)
      requires Valid()
      modifies this`submitted, this`calls
      ensures Valid() && Model() == old(Model())
      ensures calls == old(calls) + [Spec.CommitCall(current.View(), proposal, current.commits.messages, taken)]
    {
      hide Sealed, SealsOf;
      var committedSeals := CommittedSeals();
      var call := Spec.CommitCall(current.View(), proposal, current.commits.messages, taken);
      SealedAppend(submitted, calls, committedSeals, call);
      submitted, calls := submitted + [committedSeals], calls + [call];
    }

    /** The backend refused the block: unlock and ask for the next round. */
    method GiveUp()
      requires Valid()
      modifies this, current, roundChangeSet
      ensures Performed(Spec.SendNextRoundChange(old(Model()).(locked := NIL_HASH)))
    {
      hide Sealed, Spec.SendNextRoundChange;
      current.UnlockHash();
      assert Valid() && Model() == old(Model()).(locked := NIL_HASH);
      SendNextRoundChange();
    }

    method Commit(o: Oracle)
      requires Valid()
      modifies this, current, roundChangeSet
      ensures Performed(Spec.Commit(old(Model()), o))
    {
      hide Sealed, Spec.SendNextRoundChange;
      state := Committed;
      if current.prePrepare.Some? {
        Submit(current.prePrepare.value.proposal, o.commitOk);
        if !o.commitOk {
          GiveUp();
        }
      }
    }

    method HandleCommit(msg: Message, o: Oracle) returns (err: Err)
      requires Valid() && msg.CommitMsg?
      modifies Repr()
      ensures Performed(Spec.HandleCommit(old(Model()), msg, o))
      ensures err == Spec.HandleCommit(old(Model()), msg, o).err
    {
      hide Sealed, Spec.CommitIfReady;
      err := CheckMessage(msg, current.View(), waitingForRoundChange, state);
      if err != Ok {
        return;
      }
      if !MatchesSubject(msg.view, msg.digest) {
        return InconsistentSubject;
      }
      var _ := current.commits.Add(msg);
      CommitIfReady(o);
    }

    method CommitIfReady(o: Oracle)
      requires Valid()
      modifies this, current, roundChangeSet
      ensures Performed(Spec.CommitIfReady(old(Model()), o))
    {
      hide Sealed, Spec.Commit, ReachThreshold;
      if ReachThreshold(|valSet|, current.commits.Size()) && state.Rank() < Committed.Rank() {
        current.LockHash();
        Commit(o);
      }
    }

    method HandleRoundChange(msg: Message, o: Oracle) returns (err: Err)
      requires Valid() && msg.RoundChangeMsg?
      modifies Repr()
      ensures Performed(Spec.HandleRoundChange(old(Model()), msg, o))
      ensures err == Spec.HandleRoundChange(old(Model()), msg, o).err
    {
      hide Sealed, Spec.AddRoundChange, Spec.StartNewRound, Spec.SendRoundChange, ReachThreshold, FaultTolerantNum;
      err := CheckMessage(msg, current.View(), waitingForRoundChange, state);
      if err != Ok {
        return;
      }
      var num;
      num, err := roundChangeSet.Add(msg);
      ghost var a := old(Model()).(roundChanges := Spec.AddRoundChange(old(Model()).roundChanges, valSet, msg));
      assert Valid() && Model() == a;
      if err != Ok {
        return;
      }
      var round := msg.view.round;
      if ReachThreshold(|valSet|, num) && (waitingForRoundChange || current.round < round) {
        StartNewRound(round, o);
      } else if waitingForRoundChange && num == FaultTolerantNum(|valSet|) + 1 {
        if current.round < round {
          SendRoundChange(round);
        }
      } else if current.round < round {
        return Ignored;
      }
    }

    method HandleTimeoutMsg(o: Oracle)
      requires Valid()
      modifies Repr()
      ensures Performed(Spec.HandleTimeout(old(Model()), o))
    {
      hide Sealed, Spec.LeaveRound, Spec.Released;
      Release();
      LeaveRound(o);
    }

    method LeaveRound(o: Oracle)
      requires Valid()
      modifies this, roundChangeSet
      ensures Performed(Spec.LeaveRound(old(Model()), o))
    {
      hide Sealed, Spec.SendRoundChange, Spec.MoveOn, FaultTolerantNum, Spec.MaxRound;
      if !waitingForRoundChange {
        var maxRound := roundChangeSet.GreatestRound(FaultTolerantNum(|valSet|) + 1);
        if maxRound.Some? && maxRound.value > current.round {
          SendRoundChange(maxRound.value);
          return;
        }
      }
      MoveOn(o);
    }

    method MoveOn(o: Oracle)
      requires Valid()
      modifies this, roundChangeSet
      ensures Performed(Spec.MoveOn(old(Model()), o))
    {
      hide Sealed, Spec.StartNewRound, Spec.SendNextRoundChange;
      if o.last.Some? && o.last.value.height >= current.sequence {
        StartNewRound(0, o);
      } else {
        SendNextRoundChange();
      }
    }

    /** A timeout gives up the lock and the pending request first. */
    method Release()
      requires Valid()
      modifies current
      ensures Valid() && Model() == Spec.Released(old(Model())) && Repr() == old(Repr())
    {
      hide Sealed;
      current.UnlockHash();
      current.pendingRequest := None;
    }

    method HandleRequest(p: Proposal) returns (err: Err)
      requires Valid()
      modifies Repr()
      ensures Performed(Spec.HandleRequest(old(Model()), p))
      ensures err == Spec.HandleRequest(old(Model()), p).err
    {
      hide Sealed;
      if current.sequence > p.height {
        return OldMessage;
      } else if current.sequence < p.height {
        return FutureMessage;
      }
      if state == AcceptRequest {
        current.pendingRequest := Some(p);
      }
      if state == AcceptRequest && !waitingForRoundChange {
        SendPrePrepare(p);
      }
      return Ok;
    }

    method HandleMsg(msg: Message, o: Oracle) returns (err: Err)
      requires Valid()
      modifies Repr()
      ensures Performed(Spec.HandleMsg(old(Model()), msg, o))
      ensures err == Spec.HandleMsg(old(Model()), msg, o).err
    {
      hide Sealed, Spec.HandlePrePrepare, Spec.HandlePrepare, Spec.HandleCommit, Spec.HandleRoundChange;
      match msg
      case PrePrepareMsg(_, _, _) => err := HandlePrePrepare(msg, o);
      case PrepareMsg(_, _, _) => err := HandlePrepare(msg);
      case CommitMsg(_, _, _, _) => err := HandleCommit(msg, o);
      case RoundChangeMsg(_, _, _) => err := HandleRoundChange(msg, o);
      case Malformed(_) => err := InvalidMessage;
    }

    /** One turn of handleLoop. */
    method HandleEvent(ev: Spec.Event, o: Oracle) returns (err: Err)
      requires Valid()
      modifies Repr()
      ensures Performed(Spec.Step(old(Model()), ev, o))
      ensures err == Spec.Step(old(Model()), ev, o).err
    {
      hide Sealed, Spec.HandleMsg, Spec.LeaveRound, Spec.StartNewRound, Spec.HandleRequest;
      match ev
      case Deliver(m) =>
        if m.from in valSet {
          err := HandleMsg(m, o);
        } else {
          err := Unauthorized;
        }
      case Replay(m) => err := HandleMsg(m, o);
      case Timeout =>
        HandleTimeoutMsg(o);
        err := Ok;
      case FinalCommitted =>
        StartNewRound(0, o);
        err := Ok;
      case Request(p) => err := HandleRequest(p);
    }
  }
}
