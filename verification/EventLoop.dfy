/** The event loop around the node: early messages wait in the backlog until they can be handled. */
module EventLoops {
  import opened Protocol
  import opened Selector
  import opened Quorum
  import opened NodeSpec
  import opened NodeLaws
  import opened NodeMoves
  import opened NodeRuns
  import opened Responses
  import opened Backlogs
  import opened CoreEngine

  ghost function StandOf(n: Node): Stand { Stand(n.CurrentView(), n.waiting, n.phase) }

  /**
   * Where setState drains the backlog during a step: before the backend is called, or as soon as
   * the node has come to stand elsewhere, other than by giving up its round.
   */
  ghost function DrainsAt(n: Node, e: Effect): Option<Stand> {
    if e.call.Some? then Some(Stand(n.CurrentView(), false, Committed))
    else if !e.node.waiting && StandOf(e.node) != StandOf(n) then Some(StandOf(e.node))
    else None
  }

  /** A message that cannot be handled yet, or no more, cannot be handled after a step that does not drain. */
  lemma StaysOut(n: Node, ev: Event, o: Oracle, m: Message)
    requires NodeInv(n) && Check(m, StandOf(n)) != Ok
    ensures var e := Step(n, ev, o); DrainsAt(n, e).None? ==> Check(m, StandOf(e.node)) != Ok
  {
    hide Step;
    StepMoves(n, ev, o);
  }

  /** What is early when the backlog is drained cannot be handled at the end of that step either. */
  lemma DrainedStaysOut(n: Node, ev: Event, o: Oracle, m: Message)
    requires NodeInv(n)
    ensures var e := Step(n, ev, o);
            DrainsAt(n, e).Some? && Future(m, DrainsAt(n, e).value) ==> Check(m, StandOf(e.node)) != Ok
  {
    hide Step;
    StepMoves(n, ev, o);
  }

  /** A message is put aside only by a step that changes nothing. */
  lemma EarlyChangesNothing(n: Node, ev: Event, o: Oracle)
    requires (ev.Deliver? || ev.Replay?) && Step(n, ev, o).err == FutureMessage
    ensures Step(n, ev, o).node == n && DrainsAt(n, Step(n, ev, o)).None?
    ensures Future(ev.msg, StandOf(n)) && !ev.msg.Malformed?
  {
    hide HandlePrePrepare, HandlePrepare, HandleCommit, HandleRoundChange, CheckMessage;
    match ev.msg {
      case PrePrepareMsg(_, _, _) => EarlyPrePrepare(n, ev.msg, o);
      case PrepareMsg(_, _, _) => EarlyPrepare(n, ev.msg);
      case CommitMsg(_, _, _, _) => EarlyCommit(n, ev.msg, o);
      case RoundChangeMsg(_, _, _) => EarlyRoundChange(n, ev.msg, o);
      case Malformed(_) =>
    }
  }

  ghost predicate PutAside(n: Node, m: Message, e: Effect) {
    e.err == FutureMessage ==> e.node == n && e.call.None? && Future(m, StandOf(n))
  }

  lemma EarlyPrePrepare(n: Node, m: Message, o: Oracle)
    requires m.PrePrepareMsg?
    ensures PutAside(n, m, HandlePrePrepare(n, m, o))
  {
    hide SendRoundChange, CheckMessage;
  }

  lemma EarlyPrepare(n: Node, m: Message)
    requires m.PrepareMsg?
    ensures PutAside(n, m, HandlePrepare(n, m))
  {
    hide PrepareIfReady, CheckMessage;
  }

  lemma EarlyCommit(n: Node, m: Message, o: Oracle)
    requires m.CommitMsg?
    ensures PutAside(n, m, HandleCommit(n, m, o))
  {
    hide CommitIfReady, CheckMessage;
  }

  lemma EarlyRoundChange(n: Node, m: Message, o: Oracle)
    requires m.RoundChangeMsg?
    ensures PutAside(n, m, HandleRoundChange(n, m, o))
  {
    hide StartNewRound, SendRoundChange, AddRoundChange, FaultTolerantNum, ReachThreshold, CheckMessage;
  }

  // ----- the loop -----

  /** Nothing in the queues could be handled by a node that stands there. */
  ghost predicate AllOut(queues: Queues, st: Stand) {
    forall v :: v in queues ==> NoneOk(queues[v], st)
  }

  ghost predicate NoneOk(q: Queue, st: Stand) {
    forall m :: m in q ==> Check(m, st) != Ok
  }

  ghost predicate AllRanked(queues: Queues) {
    forall v :: v in queues ==> WellRanked(queues[v])
  }

  /** The queues after a step: an early message of another node is put aside, or all of them are drained. */
  ghost predicate Turned(id: Id, was: Queues, now: Queues, posted: Queues, ev: Event, n: Node, e: Effect) {
    if (ev.Deliver? || ev.Replay?) && e.err == FutureMessage && ev.msg.from != id then
      && posted == map[]
      && now == was[ev.msg.from := QueueOf(was, ev.msg.from) + multiset{ev.msg}]
    else if DrainsAt(n, e).Some? then
      && now.Keys == posted.Keys == was.Keys
      && forall v :: v in was ==> Settled(was[v], now[v], posted[v], DrainsAt(n, e).value)
    else now == was && posted == map[]
  }

  ghost function QueueOf(queues: Queues, v: Id): Queue {
    if v in queues then queues[v] else multiset{}
  }

  /**
   * No message that could be handled is ever left waiting: if that holds of the queues before a
   * turn of the loop, and they are well ranked, it holds after it.
   */
  lemma NothingIsStuck(id: Id, was: Queues, now: Queues, posted: Queues, ev: Event, o: Oracle, n: Node)
    requires NodeInv(n) && Turned(id, was, now, posted, ev, n, Step(n, ev, o))
    requires AllOut(was, StandOf(n)) && AllRanked(was)
    ensures AllOut(now, StandOf(Step(n, ev, o).node))
  {
    hide Step, NodeInv, Check, CheckMessage, Settled, WellRanked;
    var e := Step(n, ev, o);
    if (ev.Deliver? || ev.Replay?) && e.err == FutureMessage { EarlyChangesNothing(n, ev, o); }
    forall v | v in now ensures NoneOk(now[v], StandOf(e.node)) {
      if (ev.Deliver? || ev.Replay?) && e.err == FutureMessage && ev.msg.from != id {
        assert Check(ev.msg, StandOf(n)) == FutureMessage;
      } else if DrainsAt(n, e).Some? {
        DrainedQueueIsOut(was[v], now[v], posted[v], ev, o, n);
      } else {
        forall m | m in now[v] ensures Check(m, StandOf(e.node)) != Ok { StaysOut(n, ev, o, m); }
      }
    }
  }

  lemma DrainedQueueIsOut(q: Queue, kept: Queue, posted: Queue, ev: Event, o: Oracle, n: Node)
    requires NodeInv(n) && DrainsAt(n, Step(n, ev, o)).Some?
    requires Settled(q, kept, posted, DrainsAt(n, Step(n, ev, o)).value) && WellRanked(q)
    ensures NoneOk(kept, StandOf(Step(n, ev, o).node))
  {
    hide Step, NodeInv, CheckMessage, WellRanked, Conserved;
    forall m | m in kept ensures Check(m, StandOf(Step(n, ev, o).node)) != Ok { DrainedStaysOut(n, ev, o, m); }
  }

  // ----- whole runs of the loop -----

  /** Nodes, queues and postings of a loop that takes the given steps. */
  ghost predicate IsLoopRun(id: Id, ns: seq<Node>, qs: seq<Queues>, posted: seq<Queues>, steps: seq<(Event, Oracle)>) {
    && |ns| == |qs| == |steps| + 1 && |posted| == |steps|
    && forall k :: 0 <= k < |steps| ==>
         && ns[k + 1] == Step(ns[k], steps[k].0, steps[k].1).node
         && Turned(id, qs[k], qs[k + 1], posted[k], steps[k].0, ns[k], Step(ns[k], steps[k].0, steps[k].1))
  }

  ghost predicate Fits(m: Message) { InRange(m) && !m.Malformed? }

  ghost predicate AllFit(queues: Queues) {
    forall v, m :: v in queues && m in queues[v] ==> Fits(m)
  }

  /** Every message that arrives has a key in range, or does not decode. */
  ghost predicate ArrivalsFit(steps: seq<(Event, Oracle)>) {
    forall k :: 0 <= k < |steps| && (steps[k].0.Deliver? || steps[k].0.Replay?) ==> InRange(steps[k].0.msg)
  }

  lemma FittingIsRanked(queues: Queues)
    requires AllFit(queues)
    ensures AllRanked(queues)
  {
    hide WellRanked;
    forall v | v in queues ensures WellRanked(queues[v]) {
      assert forall m :: m in queues[v] ==> Fits(m);
      InRangeIsWellRanked(queues[v]);
    }
  }

  lemma TurnKeepsFit(id: Id, was: Queues, now: Queues, posted: Queues, ev: Event, o: Oracle, n: Node)
    requires Turned(id, was, now, posted, ev, n, Step(n, ev, o)) && AllFit(was)
    requires ev.Deliver? || ev.Replay? ==> InRange(ev.msg)
    ensures AllFit(now)
  {
    hide Step, InRange, Drained, WellRanked, CheckMessage;
    if (ev.Deliver? || ev.Replay?) && Step(n, ev, o).err == FutureMessage { EarlyChangesNothing(n, ev, o); }
  }

  /**
   * Over every run of the loop in which the keys of arriving messages are in range, no message that
   * could be handled is ever left waiting.
   */
  lemma {:induction false} NothingIsEverStuck(
    id: Id, ns: seq<Node>, qs: seq<Queues>, posted: seq<Queues>, steps: seq<(Event, Oracle)>, k: nat)
    requires IsLoopRun(id, ns, qs, posted, steps) && ArrivalsFit(steps) && k <= |steps|
    requires NodeInv(ns[0]) && qs[0] == map[]
    ensures NodeInv(ns[k]) && AllFit(qs[k]) && AllOut(qs[k], StandOf(ns[k]))
  {
    hide Step, NodeInv, Turned, Fits;
    if k > 0 {
      var ev, o, j := steps[k - 1].0, steps[k - 1].1, k - 1;
      NothingIsEverStuck(id, ns, qs, posted, steps, j);
      assert ns[j + 1] == ns[k] && qs[j + 1] == qs[k];
      StepKeepsInv(ns[j], ev, o);
      FittingIsRanked(qs[j]);
      NothingIsStuck(id, qs[j], qs[k], posted[j], ev, o, ns[j]);
      TurnKeepsFit(id, qs[j], qs[k], posted[j], ev, o, ns[j]);
    }
  }

  // ----- what becomes of every message, told by the node before and after -----

  /** The message is early where it arrives, and another node's. */
  ghost predicate ArrivesEarly(id: Id, n: Node, ev: Event) {
    (ev.Replay? || (ev.Deliver? && ev.msg.from in n.vals)) && Future(ev.msg, StandOf(n)) && ev.msg.from != id
  }

  /**
   * For a node that ends at the stand: what can be handled is posted, all of it; what is early stays,
   * all of it; whatever goes otherwise is outdated or does not decode.
   */
  ghost predicate Reckoned(was: Queue, now: Queue, posted: Queue, st: Stand) {
    forall m ::
      && (Check(m, st) == Ok ==> posted[m] == was[m] && now[m] == 0)
      && (Check(m, st) == FutureMessage ==> now[m] == was[m])
      && now[m] + posted[m] <= was[m]
      && (now[m] + posted[m] < was[m] ==> Check(m, st) == OldMessage || Check(m, st) == InvalidMessage)
  }

  lemma EarlyIsToldSo(n: Node, ev: Event, o: Oracle)
    requires NodeInv(n) && (ev.Deliver? || ev.Replay?)
    ensures Step(n, ev, o).err == FutureMessage <==>
            (ev.Replay? || ev.msg.from in n.vals) && Future(ev.msg, StandOf(n))
  {
    hide Step, ErrorOf, Check;
    ErrorsExactly(n, ev, o);
    EarlyByTable(n, ev.msg, o);
  }

  lemma EarlyByTable(n: Node, m: Message, o: Oracle)
    ensures ErrorOf(n, m, o) == FutureMessage <==> Future(m, StandOf(n))
  {
    hide CallsRound, FaultTolerantNum, Supports;
  }

  /** Between the drain and the end of the step messages only age. */
  lemma DrainComesBefore(n: Node, ev: Event, o: Oracle, m: Message)
    requires NodeInv(n)
    ensures var e := Step(n, ev, o);
            DrainsAt(n, e).Some? ==> Age(Check(m, DrainsAt(n, e).value)) <= Age(Check(m, StandOf(e.node)))
  {
    hide Step;
    StepMoves(n, ev, o);
  }

  lemma DrainedIsReckoned(q: Queue, kept: Queue, posted: Queue, ev: Event, o: Oracle, n: Node)
    requires NodeInv(n) && DrainsAt(n, Step(n, ev, o)).Some?
    requires Settled(q, kept, posted, DrainsAt(n, Step(n, ev, o)).value) && WellRanked(q)
    ensures Reckoned(q, kept, posted, StandOf(Step(n, ev, o).node))
  {
    hide Step, NodeInv, CheckMessage, WellRanked, Conserved;
    var e := Step(n, ev, o);
    var d, st := DrainsAt(n, e).value, StandOf(e.node);
    forall m
      ensures Check(m, st) == Ok ==> posted[m] == q[m] && kept[m] == 0
      ensures Check(m, st) == FutureMessage ==> kept[m] == q[m]
      ensures kept[m] + posted[m] <= q[m]
      ensures kept[m] + posted[m] < q[m] ==> Check(m, st) == OldMessage || Check(m, st) == InvalidMessage
    {
      DrainComesBefore(n, ev, o, m);
      DrainedStaysOut(n, ev, o, m);
    }
  }

  lemma StillIsReckoned(q: Queue, ev: Event, o: Oracle, n: Node)
    requires NodeInv(n) && DrainsAt(n, Step(n, ev, o)).None? && NoneOk(q, StandOf(n))
    ensures Reckoned(q, q, multiset{}, StandOf(Step(n, ev, o).node))
  {
    hide Step, NodeInv, CheckMessage;
    forall m | m in q ensures Check(m, StandOf(Step(n, ev, o).node)) != Ok { StaysOut(n, ev, o, m); }
  }

  /** One turn, in these terms, for the queue of every sender with the early message that may have joined it. */
  lemma TurnIsReckoned(id: Id, was: Queues, now: Queues, posted: Queues, ev: Event, o: Oracle, n: Node, v: Id)
    requires NodeInv(n) && Turned(id, was, now, posted, ev, n, Step(n, ev, o))
    requires AllOut(was, StandOf(n)) && AllRanked(was)
    ensures var joined := if ArrivesEarly(id, n, ev) && v == ev.msg.from then multiset{ev.msg} else multiset{};
            Reckoned(QueueOf(was, v) + joined, QueueOf(now, v), QueueOf(posted, v), StandOf(Step(n, ev, o).node))
  {
    hide Step, NodeInv, Check, Settled, WellRanked, Reckoned, DrainsAt;
    var e := Step(n, ev, o);
    if ev.Deliver? || ev.Replay? { EarlyIsToldSo(n, ev, o); }
    var joined := if ArrivesEarly(id, n, ev) && v == ev.msg.from then multiset{ev.msg} else multiset{};
    if ArrivesEarly(id, n, ev) {
      EarlyIsReckoned(id, was, now, posted, ev, o, n, v);
    } else if DrainsAt(n, e).Some? && v in was {
      assert QueueOf(was, v) + joined == was[v];
      DrainedIsReckoned(was[v], now[v], posted[v], ev, o, n);
    } else if DrainsAt(n, e).Some? {
      assert QueueOf(was, v) + joined == multiset{} == QueueOf(now, v) == QueueOf(posted, v);
      NothingIsReckoned(StandOf(e.node));
    } else {
      assert QueueOf(was, v) + joined == QueueOf(was, v) == QueueOf(now, v);
      StillIsReckoned(QueueOf(was, v), ev, o, n);
    }
  }

  lemma EarlyIsReckoned(id: Id, was: Queues, now: Queues, posted: Queues, ev: Event, o: Oracle, n: Node, v: Id)
    requires NodeInv(n) && Turned(id, was, now, posted, ev, n, Step(n, ev, o))
    requires AllOut(was, StandOf(n)) && ArrivesEarly(id, n, ev)
    ensures var joined := if v == ev.msg.from then multiset{ev.msg} else multiset{};
            Reckoned(QueueOf(was, v) + joined, QueueOf(now, v), QueueOf(posted, v), StandOf(Step(n, ev, o).node))
  {
    hide Step, NodeInv, Check, Settled, Reckoned, DrainsAt, StandOf;
    EarlyIsToldSo(n, ev, o);
    EarlyChangesNothing(n, ev, o);
    var q := QueueOf(was, v) + if v == ev.msg.from then multiset{ev.msg} else multiset{};
    assert QueueOf(now, v) == q && QueueOf(posted, v) == multiset{};
    assert NoneOk(q, StandOf(n));
    StillIsReckoned(q, ev, o, n);
  }

  lemma NothingIsReckoned(st: Stand)
    ensures Reckoned(multiset{}, multiset{}, multiset{}, st)
  {
  }

  /** How often a message of the sender has been posted between two points of a run. */
  ghost function PostedBetween(posted: seq<Queues>, j: nat, k: nat, v: Id, m: Message): nat
    requires j <= k <= |posted|
  {
    if j == k then 0 else PostedBetween(posted, j, k - 1, v, m) + QueueOf(posted[k - 1], v)[m]
  }

  ghost predicate Outdated(m: Message, st: Stand) {
    Check(m, st) == OldMessage || Check(m, st) == InvalidMessage
  }

  /**
   * No message is ever lost while it matters: over every run of the loop with keys in range, each
   * copy that is queued at some point is at every later point still queued, or has been posted, or
   * the message has become outdated.
   */
  lemma {:induction false} NothingIsLost(
    id: Id, ns: seq<Node>, qs: seq<Queues>, posted: seq<Queues>, steps: seq<(Event, Oracle)>,
    j: nat, k: nat, v: Id, m: Message)
    requires IsLoopRun(id, ns, qs, posted, steps) && ArrivalsFit(steps) && j <= k <= |steps|
    requires NodeInv(ns[0]) && qs[0] == map[]
    ensures Outdated(m, StandOf(ns[k]))
            || QueueOf(qs[k], v)[m] + PostedBetween(posted, j, k, v, m) >= QueueOf(qs[j], v)[m]
    decreases k
  {
    hide Step, NodeInv, Turned, Fits, Check, QueueOf, AllOut;
    if j < k {
      var ev, o, i := steps[k - 1].0, steps[k - 1].1, k - 1;
      NothingIsLost(id, ns, qs, posted, steps, j, i, v, m);
      NothingIsEverStuck(id, ns, qs, posted, steps, i);
      assert ns[i + 1] == ns[k] && qs[i + 1] == qs[k];
      FittingIsRanked(qs[i]);
      TurnIsReckoned(id, qs[i], qs[k], posted[i], ev, o, ns[i], v);
      StaysOutdated(ns[i], ev, o, m);
    }
  }

  lemma StaysOutdated(n: Node, ev: Event, o: Oracle, m: Message)
    requires NodeInv(n)
    ensures Outdated(m, StandOf(n)) ==> Outdated(m, StandOf(Step(n, ev, o).node))
  {
    hide Step, NodeInv;
    StepIsMonotone(n, ev, o);
    ProgressAges(n, Step(n, ev, o).node, m);
  }

  /** And what arrives early joins its sender's queue. */
  lemma EarlyJoins(id: Id, was: Queues, now: Queues, posted: Queues, ev: Event, o: Oracle, n: Node)
    requires NodeInv(n) && Turned(id, was, now, posted, ev, n, Step(n, ev, o)) && ArrivesEarly(id, n, ev)
    ensures QueueOf(now, ev.msg.from) == QueueOf(was, ev.msg.from) + multiset{ev.msg}
  {
    hide Step, NodeInv, Check;
    EarlyIsToldSo(n, ev, o);
  }

  // ----- the object -----

  class EventLoop {
    const core: Core
    const backlog: Backlog

    ghost predicate Valid()
      reads this, core, core.Repr(), backlog
    {
      core.Valid() && backlog.Valid() && backlog.peerId == core.peerId && backlog as object !in core.Repr()
    }

    constructor (peerId: Id, policy: Policy, last: Last, valSet: seq<Id>)
      ensures Valid() && core.Model() == Boot(peerId, policy, last, valSet) && backlog.queues == map[]
    {
      core := new Core(peerId, policy, last, valSet);
      backlog := new Backlog(peerId);
    }

    function CurrentStand(): Stand
      reads this, core, core.current
    {
      Stand(core.current.View(), core.waitingForRoundChange, core.state)
    }

    /** After the step: put an early message aside, or drain the queues if setState was called. */
    method Afterwards(ev: Event, err: Err, before: Stand, called: bool, ghost n: Node, ghost e: Effect)
      returns (posted: Queues)
      requires Valid() && err == e.err && before == StandOf(n) && CurrentStand() == StandOf(e.node)
      requires called <==> e.call.Some?
      requires (ev.Deliver? || ev.Replay?) && err == FutureMessage ==>
                 !ev.msg.Malformed? && DrainsAt(n, e).None?
      modifies backlog
      ensures backlog.Valid()
      ensures Turned(core.peerId, old(backlog.queues), backlog.queues, posted, ev, n, e)
    {
      hide Settled, CheckMessage;
      posted := map[];
      if (ev.Deliver? || ev.Replay?) && err == FutureMessage {
        backlog.StoreBacklog(ev.msg, ev.msg.from);
      } else if called {
        posted := backlog.ProcessBacklog(Stand(before.view, false, Committed));
      } else if !core.waitingForRoundChange && CurrentStand() != before {
        posted := backlog.ProcessBacklog(CurrentStand());
      }
    }

    /** The step of the node alone. */
    method Handle(ev: Event, o: Oracle) returns (before: Stand, err: Err, called: bool)
      requires Valid()
      modifies core.Repr()
      ensures core.Performed(Step(old(core.Model()), ev, o)) && err == Step(old(core.Model()), ev, o).err
      ensures called <==> Step(old(core.Model()), ev, o).call.Some?
      ensures Valid() && before == StandOf(old(core.Model())) && CurrentStand() == StandOf(core.Model())
    {
      hide Step;
      before := CurrentStand();
      var calls := |core.calls|;
      err := core.HandleEvent(ev, o);
      called := |core.calls| > calls;
    }

    /** One event: the step of the node, and what becomes of the messages put aside. */
    method Turn(ev: Event, o: Oracle) returns (posted: Queues)
      requires Valid()
      modifies core.Repr(), backlog
      ensures core.Performed(Step(old(core.Model()), ev, o)) && backlog.Valid()
      ensures Turned(core.peerId, old(backlog.queues), backlog.queues, posted, ev,
                     old(core.Model()), Step(old(core.Model()), ev, o))
      ensures old(NodeInv(core.Model())) && old(AllRanked(backlog.queues))
              && old(AllOut(backlog.queues, StandOf(core.Model()))) ==>
              AllOut(backlog.queues, StandOf(core.Model()))
    {
      hide Step, NodeInv, Turned, AllOut, AllRanked, StandOf, DrainsAt;
      ghost var n, was := core.Model(), backlog.queues;
      ghost var e := Step(n, ev, o);
      var before, err, called := Handle(ev, o);
      if (ev.Deliver? || ev.Replay?) && err == FutureMessage { EarlyChangesNothing(n, ev, o); }
      posted := Afterwards(ev, err, before, called, n, e);
      if NodeInv(n) && AllOut(was, StandOf(n)) && AllRanked(was) {
        NothingIsStuck(core.peerId, was, backlog.queues, posted, ev, o, n);
      }
    }
  }
}
