/**
 * A cluster: honest nodes that take the steps of NodeSpec, anyone else injecting arbitrary
 * messages under names that are not honest, and a set of sent messages that only grows.
 */
module Cluster {
  import opened Protocol
  import opened Selector
  import opened NodeSpec
  import opened NodeLaws
  import opened NodeMoves
  import opened NodeRuns

  /** The honest ids, and the validators deciding each sequence. */
  datatype Config = Config(honest: set<Id>, valsAt: nat -> seq<Id>)

  /** A call of backend.Commit by an honest node, and whether the backend took the block. */
  datatype Decision = Decision(node: Id, view: View, digest: Hash, accepted: bool)

  /**
   * `decisions`, `dropped`, `replied` and `entered` record history: the commits made, where an
   * honest node dropped a lock, where one sent an old-block reply, the views honest nodes entered.
   */
  datatype State = State(
    nodes: map<Id, Node>,
    net: set<Message>,
    decisions: set<Decision>,
    dropped: set<(Id, nat)>,
    replied: set<(Id, nat)>,
    entered: set<View>)

  datatype Action = Act(node: Id, ev: Event, oracle: Oracle) | Inject(msg: Message)

  /**
   * Messages attributed to an honest node were sent by it; a delivered message was sent; the
   * backend names the validators of the sequence after the newest block.
   */
  ghost predicate Enabled(cfg: Config, s: State, a: Action) {
    match a
    case Inject(m) => m.from !in cfg.honest
    case Act(i, ev, o) =>
      && i in cfg.honest && i in s.nodes
      && (ev.Deliver? || ev.Replay? ==> ev.msg in s.net)
      && (o.last.Some? ==> o.vals == cfg.valsAt(o.last.value.height + 1))
  }

  ghost function OptionSet<T>(x: Option<T>): set<T> {
    if x.Some? then {x.value} else {}
  }

  ghost function DecisionsOf(i: Id, call: Option<CommitCall>): set<Decision> {
    if call.Some? then {Decision(i, call.value.view, call.value.proposal.hash, call.value.accepted)} else {}
  }

  ghost function RepliesOf(n: Node, out: Option<Message>): set<(Id, nat)> {
    if out.Some? && IsOldReply(n, out.value) then {(n.id, out.value.view.sequence)} else {}
  }

  /** The state after honest node i took a step with effect e. */
  ghost function Record(s: State, i: Id, e: Effect): State
    requires i in s.nodes
  {
    State(s.nodes[i := e.node],
          s.net + OptionSet(e.out),
          s.decisions + DecisionsOf(i, e.call),
          s.dropped + (if Drops(s.nodes[i], e.node) then {(i, e.node.sequence)} else {}),
          s.replied + RepliesOf(s.nodes[i], e.out),
          s.entered + {e.node.CurrentView()})
  }

  ghost function Next(cfg: Config, s: State, a: Action): State
    requires Enabled(cfg, s, a)
  {
    match a
    case Inject(m) => s.(net := s.net + {m})
    case Act(i, ev, o) => Record(s, i, Step(s.nodes[i], ev, o))
  }

  ghost predicate Booted(cfg: Config, n: Node, i: Id, policy: Policy, last: Last) {
    n == Boot(i, policy, last, cfg.valsAt(last.height + 1))
  }

  /** Every honest node has just started on some height; nothing was sent. */
  ghost predicate Init(cfg: Config, s: State) {
    && s.nodes.Keys == cfg.honest
    && (forall i :: i in cfg.honest ==>
          exists policy, last :: Booted(cfg, s.nodes[i], i, policy, last))
    && s.net == {} && s.decisions == {} && s.dropped == {} && s.replied == {}
    && s.entered == (set i | i in s.nodes :: s.nodes[i].CurrentView())
  }

  ghost predicate IsRun(cfg: Config, ss: seq<State>, acts: seq<Action>) {
    && |ss| == |acts| + 1 && Init(cfg, ss[0])
    && forall k :: 0 <= k < |acts| ==> Enabled(cfg, ss[k], acts[k]) && ss[k + 1] == Next(cfg, ss[k], acts[k])
  }

  ghost predicate Reachable(cfg: Config, s: State) {
    exists ss, acts :: IsRun(cfg, ss, acts) && s == ss[|acts|]
  }

  lemma ReachableNext(cfg: Config, s: State, a: Action)
    requires Reachable(cfg, s) && Enabled(cfg, s, a)
    ensures Reachable(cfg, Next(cfg, s, a))
  {
    hide Next, Enabled;
    var ss, acts :| IsRun(cfg, ss, acts) && s == ss[|acts|];
    assert IsRun(cfg, ss + [Next(cfg, s, a)], acts + [a]);
  }

  // ----- what one honest node has sent -----

  /** The node neither dropped a lock at the sequence nor sent an old-block reply about it. */
  ghost predicate Clean(s: State, i: Id, sequence: nat) {
    (i, sequence) !in s.dropped && (i, sequence) !in s.replied
  }

  /** m is a PREPARE or COMMIT of node i that is not in a sequence i sent an old-block reply about. */
  ghost predicate Supported(s: State, i: Id, m: Message) {
    m in s.net && IsSupport(m) && m.from == i && (i, m.view.sequence) !in s.replied
  }

  /** What i supports is at most its own view, and in that view it is its accepted block. */
  ghost predicate SupportsUpToNow(s: State, n: Node) {
    forall m :: Supported(s, n.id, m) ==>
      && m.digest != NIL_HASH
      && m.view.AtMost(n.CurrentView())
      && (m.view == n.CurrentView() ==>
            !n.waiting && n.phase != AcceptRequest && MatchesSubject(n, m.view, m.digest)
            && (m.CommitMsg? ==> n.phase.Rank() >= Prepared.Rank()))
      && (m.CommitMsg? ==> m.seal == Some(Seal(n.id, m.digest)))
  }

  /** One digest per view. */
  ghost predicate OneDigestPerView(s: State, i: Id) {
    forall m, m' :: Supported(s, i, m) && Supported(s, i, m') && m.view == m'.view ==> m.digest == m'.digest
  }

  /** A COMMIT of the current sequence is still locked on, unless the lock was dropped there. */
  ghost predicate CommitsAreLocked(s: State, n: Node) {
    forall m ::
      (Supported(s, n.id, m) && m.CommitMsg? && m.view.sequence == n.sequence && (n.id, n.sequence) !in s.dropped)
      ==> n.locked == m.digest
  }

  /** After a COMMIT, only its digest is supported in later rounds of the sequence. */
  ghost predicate CommitsBind(s: State, i: Id) {
    forall m, m' ::
      (&& Supported(s, i, m) && Supported(s, i, m') && m.CommitMsg?
       && m.view.sequence == m'.view.sequence && m.view.round < m'.view.round
       && (i, m.view.sequence) !in s.dropped)
      ==> m.digest == m'.digest
  }

  /** A ROUND CHANGE was sent on entering its view, which is never round 0. */
  ghost predicate RoundChangesEntered(s: State, i: Id) {
    forall m :: m in s.net && m.RoundChangeMsg? && m.from == i ==> m.view in s.entered && m.view.round > 0
  }

  ghost predicate History(s: State, n: Node) {
    && SupportsUpToNow(s, n) && OneDigestPerView(s, n.id) && CommitsAreLocked(s, n) && CommitsBind(s, n.id)
    && RoundChangesEntered(s, n.id)
  }

  /** What node i stores was sent, and its validators are those of its sequence. */
  ghost predicate Wired(cfg: Config, s: State, n: Node) {
    && NodeInv(n) && StoredIn(n, s.net) && n.vals == cfg.valsAt(n.sequence) && n.CurrentView() in s.entered
  }

  ghost predicate Sound(cfg: Config, s: State) {
    && s.nodes.Keys == cfg.honest
    && forall i :: i in cfg.honest ==> s.nodes[i].id == i && Wired(cfg, s, s.nodes[i]) && History(s, s.nodes[i])
  }

  // ----- preservation -----

  /** The messages and history that other parties add do not touch a node's own history. */
  lemma OthersKeepHistory(s: State, s': State, n: Node)
    requires History(s, n)
    requires s.net <= s'.net && s.entered <= s'.entered
    requires forall m :: m in s'.net && m.from == n.id ==> m in s.net
    requires forall q :: (n.id, q) in s'.dropped <==> (n.id, q) in s.dropped
    requires forall q :: (n.id, q) in s'.replied <==> (n.id, q) in s.replied
    ensures History(s', n)
  {
    assert forall m :: Supported(s', n.id, m) <==> Supported(s, n.id, m);
  }

  /** What a step does to the node's history, in the terms the history lemmas need. */
  ghost predicate RightStep(s: State, s': State, n: Node, n': Node, out: Option<Message>) {
    && n'.id == n.id
    && Progress(n).AtMost(Progress(n'))
    && s'.net == s.net + OptionSet(out)
    && s.entered <= s'.entered && n'.CurrentView() in s'.entered
    && s.dropped <= s'.dropped && s.replied <= s'.replied
    && (Drops(n, n') ==> (n.id, n.sequence) in s'.dropped)
    && (n'.sequence == n.sequence && n.IsLocked() && n'.IsLocked() ==> n'.locked == n.locked)
    && (n'.CurrentView() == n.CurrentView() && !n.waiting && n.phase != AcceptRequest ==>
          !n'.waiting && n'.phase.Rank() >= n.phase.Rank() && n'.prePrepare == n.prePrepare)
    && (out.Some? ==>
          var m := out.value;
          && m.from == n.id
          && (IsSupport(m) ==>
                if IsOldReply(n, m) then n' == n && (n.id, m.view.sequence) in s'.replied
                else SupportsRightly(n, n', m))
          && (m.RoundChangeMsg? ==> m.view == n'.CurrentView() && m.view.round > 0))
  }

  lemma MoveIsRight(s: State, i: Id, ev: Event, o: Oracle, e: Effect)
    requires i in s.nodes && s.nodes[i].id == i && NodeInv(s.nodes[i]) && Moves(s.nodes[i], ev, o, e)
    ensures RightStep(s, Record(s, i, e), s.nodes[i], e.node, e.out)
  {
    if ev.Timeout? {
      TimingOutIsRight(s, i, o, e);
    } else {
      ReactionIsRight(s, i, o, e);
    }
  }

  lemma TimingOutIsRight(s: State, i: Id, o: Oracle, e: Effect)
    requires i in s.nodes && s.nodes[i].id == i && NodeInv(s.nodes[i]) && TimesOut(s.nodes[i], o, e)
    ensures RightStep(s, Record(s, i, e), s.nodes[i], e.node, e.out)
  {
  }

  lemma ReactionIsRight(s: State, i: Id, o: Oracle, e: Effect)
    requires i in s.nodes && s.nodes[i].id == i && NodeInv(s.nodes[i]) && Reacts(s.nodes[i], o, e)
    ensures RightStep(s, Record(s, i, e), s.nodes[i], e.node, e.out)
  {
    var n := s.nodes[i];
    if AcceptsOpen(n, e) || AcceptsLocked(n, e) || Prepares(n, e) {
      SupportIsRight(s, i, e);
    } else if CommitsDone(n, e) || CommitsRefused(n, e) || Records(n, e) {
      CommitIsRight(s, i, e);
    } else {
      MovingOnIsRight(s, i, o, e);
    }
  }

  lemma SupportIsRight(s: State, i: Id, e: Effect)
    requires i in s.nodes && s.nodes[i].id == i && NodeInv(s.nodes[i])
    requires AcceptsOpen(s.nodes[i], e) || AcceptsLocked(s.nodes[i], e) || Prepares(s.nodes[i], e)
    ensures RightStep(s, Record(s, i, e), s.nodes[i], e.node, e.out)
  {
  }

  lemma CommitIsRight(s: State, i: Id, e: Effect)
    requires i in s.nodes && s.nodes[i].id == i && NodeInv(s.nodes[i])
    requires CommitsDone(s.nodes[i], e) || CommitsRefused(s.nodes[i], e) || Records(s.nodes[i], e)
    ensures RightStep(s, Record(s, i, e), s.nodes[i], e.node, e.out)
  {
  }

  lemma MovingOnIsRight(s: State, i: Id, o: Oracle, e: Effect)
    requires i in s.nodes && s.nodes[i].id == i && NodeInv(s.nodes[i])
    requires var n := s.nodes[i];
             || Quiet(n, e) || RepliesOld(n, e) || Activated(n, e) || Advances(n, o, e)
             || (CatchesUp(n, e) && e.node.locked == n.locked)
    ensures RightStep(s, Record(s, i, e), s.nodes[i], e.node, e.out)
  {
  }

  lemma StepIsRight(cfg: Config, s: State, i: Id, ev: Event, o: Oracle)
    requires Sound(cfg, s) && i in cfg.honest
    ensures var e := Step(s.nodes[i], ev, o); RightStep(s, Record(s, i, e), s.nodes[i], e.node, e.out)
  {
    hide Step;
    StepMoves(s.nodes[i], ev, o);
    MoveIsRight(s, i, ev, o, Step(s.nodes[i], ev, o));
  }

  lemma NewSupport(s: State, s': State, n: Node, n': Node, out: Option<Message>, m: Message)
    requires RightStep(s, s', n, n', out) && Supported(s', n.id, m)
    ensures Supported(s, n.id, m) || (out == Some(m) && SupportsRightly(n, n', m))
  {
  }

  lemma RightStepKeepsSupports(s: State, s': State, n: Node, n': Node, out: Option<Message>)
    requires RightStep(s, s', n, n', out) && NodeInv(n) && NodeInv(n') && SupportsUpToNow(s, n)
    ensures SupportsUpToNow(s', n')
  {
    forall m | Supported(s', n'.id, m)
      ensures m.digest != NIL_HASH && m.view.AtMost(n'.CurrentView())
      ensures m.view == n'.CurrentView() ==>
                !n'.waiting && n'.phase != AcceptRequest && MatchesSubject(n', m.view, m.digest)
                && (m.CommitMsg? ==> n'.phase.Rank() >= Prepared.Rank())
      ensures m.CommitMsg? ==> m.seal == Some(Seal(n'.id, m.digest))
    {
      NewSupport(s, s', n, n', out, m);
      if Supported(s, n.id, m) {
        assert m.view.AtMost(n.CurrentView());
      }
    }
  }

  lemma RightStepKeepsOneDigest(s: State, s': State, n: Node, n': Node, out: Option<Message>)
    requires RightStep(s, s', n, n', out) && NodeInv(n) && SupportsUpToNow(s, n) && OneDigestPerView(s, n.id)
    ensures OneDigestPerView(s', n.id)
  {
    forall m, m' | Supported(s', n.id, m) && Supported(s', n.id, m') && m.view == m'.view
      ensures m.digest == m'.digest
    {
      NewSupport(s, s', n, n', out, m);
      NewSupport(s, s', n, n', out, m');
    }
  }

  lemma RightStepKeepsLocks(s: State, s': State, n: Node, n': Node, out: Option<Message>)
    requires RightStep(s, s', n, n', out) && SupportsUpToNow(s, n) && CommitsAreLocked(s, n)
    ensures CommitsAreLocked(s', n')
  {
    forall m | Supported(s', n'.id, m) && m.CommitMsg? && m.view.sequence == n'.sequence
               && (n'.id, n'.sequence) !in s'.dropped
      ensures n'.locked == m.digest
    {
      NewSupport(s, s', n, n', out, m);
      if Supported(s, n.id, m) {
        assert m.view.AtMost(n.CurrentView());
        assert n.sequence == n'.sequence;
        assert (n.id, n.sequence) !in s.dropped;
        assert n.locked == m.digest;
        assert !Drops(n, n');
      }
    }
  }

  lemma RightStepKeepsBinding(s: State, s': State, n: Node, n': Node, out: Option<Message>)
    requires RightStep(s, s', n, n', out) && NodeInv(n)
    requires SupportsUpToNow(s, n) && CommitsAreLocked(s, n) && CommitsBind(s, n.id)
    ensures CommitsBind(s', n.id)
  {
    forall m, m' | Supported(s', n.id, m) && Supported(s', n.id, m') && m.CommitMsg?
                   && m.view.sequence == m'.view.sequence && m.view.round < m'.view.round
                   && (n.id, m.view.sequence) !in s'.dropped
      ensures m.digest == m'.digest
    {
      NewSupport(s, s', n, n', out, m);
      NewSupport(s, s', n, n', out, m');
      assert (n.id, m.view.sequence) !in s.dropped;
      if Supported(s, n.id, m) && !Supported(s, n.id, m') {
        assert n.locked == m.digest;
      }
    }
  }

  lemma RightStepKeepsHistory(s: State, s': State, n: Node, n': Node, out: Option<Message>)
    requires RightStep(s, s', n, n', out) && NodeInv(n) && NodeInv(n') && History(s, n)
    ensures History(s', n')
  {
    RightStepKeepsSupports(s, s', n, n', out);
    RightStepKeepsOneDigest(s, s', n, n', out);
    RightStepKeepsLocks(s, s', n, n', out);
    RightStepKeepsBinding(s, s', n, n', out);
  }

  lemma StepKeepsVals(cfg: Config, n: Node, ev: Event, o: Oracle)
    requires NodeInv(n) && n.vals == cfg.valsAt(n.sequence)
    requires o.last.Some? ==> o.vals == cfg.valsAt(o.last.value.height + 1)
    ensures var n' := Step(n, ev, o).node; n'.vals == cfg.valsAt(n'.sequence)
  {
    hide Step;
    StepMoves(n, ev, o);
  }

  /** The node that takes the step stays sound. */
  lemma ActKeepsActor(cfg: Config, s: State, i: Id, ev: Event, o: Oracle)
    requires Sound(cfg, s) && Enabled(cfg, s, Act(i, ev, o))
    ensures var s' := Next(cfg, s, Act(i, ev, o));
            s'.nodes[i].id == i && Wired(cfg, s', s'.nodes[i]) && History(s', s'.nodes[i])
  {
    hide Step;
    var n, e := s.nodes[i], Step(s.nodes[i], ev, o);
    var s' := Record(s, i, e);
    StepIsRight(cfg, s, i, ev, o);
    StepKeepsInv(n, ev, o);
    RightStepKeepsHistory(s, s', n, e.node, e.out);
    StepStoresOnlySent(n, ev, o, s.net);
    StepKeepsVals(cfg, n, ev, o);
    StoredInMore(e.node, s.net, s'.net);
  }

  lemma StoredInMore(n: Node, net: set<Message>, net': set<Message>)
    requires StoredIn(n, net) && net <= net'
    ensures StoredIn(n, net')
  {
  }

  /** The other honest nodes stay sound: nobody else speaks or drops locks in their name. */
  lemma ActKeepsOthers(cfg: Config, s: State, i: Id, e: Effect, j: Id)
    requires Sound(cfg, s) && i in cfg.honest && j in cfg.honest && j != i
    requires RightStep(s, Record(s, i, e), s.nodes[i], e.node, e.out)
    ensures var s' := Record(s, i, e);
            s'.nodes[j].id == j && Wired(cfg, s', s'.nodes[j]) && History(s', s'.nodes[j])
  {
    var s' := Record(s, i, e);
    OthersKeepHistory(s, s', s.nodes[j]);
    StoredInMore(s.nodes[j], s.net, s'.net);
  }

  lemma NextKeepsSound(cfg: Config, s: State, a: Action)
    requires Sound(cfg, s) && Enabled(cfg, s, a)
    ensures Sound(cfg, Next(cfg, s, a))
  {
    hide Step;
    var s' := Next(cfg, s, a);
    match a {
      case Inject(m) =>
        forall j | j in cfg.honest
          ensures s'.nodes[j].id == j && Wired(cfg, s', s'.nodes[j]) && History(s', s'.nodes[j])
        {
          OthersKeepHistory(s, s', s.nodes[j]);
          StoredInMore(s.nodes[j], s.net, s'.net);
        }
      case Act(i, ev, o) =>
        ActKeepsActor(cfg, s, i, ev, o);
        StepIsRight(cfg, s, i, ev, o);
        var e := Step(s.nodes[i], ev, o);
        forall j | j in cfg.honest && j != i
          ensures s'.nodes[j].id == j && Wired(cfg, s', s'.nodes[j]) && History(s', s'.nodes[j])
        {
          ActKeepsOthers(cfg, s, i, e, j);
        }
    }
  }

  lemma InitIsSound(cfg: Config, s: State)
    requires Init(cfg, s)
    ensures Sound(cfg, s)
  {
    forall i | i in cfg.honest ensures s.nodes[i].id == i && Wired(cfg, s, s.nodes[i]) && History(s, s.nodes[i]) {
      var policy, last :| Booted(cfg, s.nodes[i], i, policy, last);
      BootInv(i, policy, last, cfg.valsAt(last.height + 1));
    }
  }
}
