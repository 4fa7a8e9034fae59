/** Safety of the cluster: agreement inside a view and across rounds, and where locks come from. */
module Agreement {
  import opened Protocol
  import opened Quorum
  import opened Selector
  import opened NodeSpec
  import opened NodeLaws
  import opened NodeMoves
  import opened NodeRuns
  import opened Cluster

  /** The validators of the sequence are distinct and at most f of them are not honest. */
  ghost predicate FaultBound(cfg: Config, sequence: nat) {
    var vals := cfg.valsAt(sequence);
    && vals != [] && Distinct(vals)
    && |Members(vals) - cfg.honest| <= FaultTolerantNum(|vals|)
  }

  // ----- quorums among the sent messages -----

  /** A PREPARE or COMMIT of v for the digest in the view was sent. */
  ghost predicate Backs(net: set<Message>, v: Id, view: View, digest: Hash) {
    exists m :: m in net && IsSupport(m) && m.from == v && m.view == view && m.digest == digest
  }

  ghost predicate CommitsTo(net: set<Message>, v: Id, view: View, digest: Hash) {
    exists m :: m in net && m.CommitMsg? && m.from == v && m.view == view && m.digest == digest
  }

  ghost function Backers(net: set<Message>, vals: seq<Id>, view: View, digest: Hash): set<Id> {
    set v | v in Members(vals) && Backs(net, v, view, digest)
  }

  ghost function Committers(net: set<Message>, vals: seq<Id>, view: View, digest: Hash): set<Id> {
    set v | v in Members(vals) && CommitsTo(net, v, view, digest)
  }

  /** A quorum of matching PREPAREs and COMMITs. */
  ghost predicate Backed(net: set<Message>, vals: seq<Id>, view: View, digest: Hash) {
    ReachThreshold(|vals|, |Backers(net, vals, view, digest)|)
  }

  ghost predicate CommitBacked(net: set<Message>, vals: seq<Id>, view: View, digest: Hash) {
    ReachThreshold(|vals|, |Committers(net, vals, view, digest)|)
  }

  lemma ThresholdGrows(vals: seq<Id>, a: set<Id>, b: set<Id>)
    requires a <= b <= Members(vals) && ReachThreshold(|vals|, |a|)
    ensures ReachThreshold(|vals|, |b|)
  {
    MembersAtMost(vals);
    SubsetSize(a, b);
    SubsetSize(b, Members(vals));
  }

  lemma BackedGrows(net: set<Message>, net': set<Message>, vals: seq<Id>, view: View, digest: Hash)
    requires net <= net' && Backed(net, vals, view, digest)
    ensures Backed(net', vals, view, digest)
  {
    ThresholdGrows(vals, Backers(net, vals, view, digest), Backers(net', vals, view, digest));
  }

  lemma CommitBackedGrows(net: set<Message>, net': set<Message>, vals: seq<Id>, view: View, digest: Hash)
    requires net <= net' && CommitBacked(net, vals, view, digest)
    ensures CommitBacked(net', vals, view, digest)
  {
    ThresholdGrows(vals, Committers(net, vals, view, digest), Committers(net', vals, view, digest));
  }

  lemma CommitsAlsoBack(net: set<Message>, vals: seq<Id>, view: View, digest: Hash)
    requires CommitBacked(net, vals, view, digest)
    ensures Backed(net, vals, view, digest)
  {
    ThresholdGrows(vals, Committers(net, vals, view, digest), Backers(net, vals, view, digest));
  }

  // ----- decisions and locks have quorums behind them -----

  ghost predicate DecisionsBacked(cfg: Config, s: State) {
    forall d :: d in s.decisions ==> CommitBacked(s.net, cfg.valsAt(d.view.sequence), d.view, d.digest)
  }

  /** At some round of the sequence up to the node's own, its lock had a quorum. */
  ghost predicate LockFrom(net: set<Message>, n: Node, r: nat) {
    r <= n.round && Backed(net, n.vals, View(n.sequence, r), n.locked)
  }

  ghost predicate LockBacked(s: State, n: Node) {
    n.IsLocked() ==> exists r :: LockFrom(s.net, n, r)
  }

  ghost predicate Grounded(cfg: Config, s: State) {
    && Sound(cfg, s) && DecisionsBacked(cfg, s)
    && forall i :: i in cfg.honest ==> LockBacked(s, s.nodes[i])
  }

  lemma HeldCommitsBack(net: set<Message>, vals: seq<Id>, view: View, digest: Hash, ms: MessageMap)
    requires AllIn(ms, net) && AllCommits(ms, vals, view, digest) && ReachThreshold(|vals|, |ms|)
    ensures CommitBacked(net, vals, view, digest)
  {
    assert |ms| == |ms.Keys|;
    ThresholdGrows(vals, ms.Keys, Committers(net, vals, view, digest));
  }

  lemma HeldMessagesBack(net: set<Message>, n: Node)
    requires NodeInv(n) && StoredIn(n, net) && !n.waiting && n.phase != AcceptRequest
    requires n.Reaches(PrepareOrCommitSize(n))
    ensures Backed(net, n.vals, n.CurrentView(), n.prePrepare.value.proposal.hash)
  {
    var hash := n.prePrepare.value.proposal.hash;
    ThresholdGrows(n.vals, n.prepares.Keys + n.commits.Keys, Backers(net, n.vals, n.CurrentView(), hash));
  }

  lemma StepDecidesWithQuorum(cfg: Config, s: State, i: Id, ev: Event, o: Oracle)
    requires Grounded(cfg, s) && Enabled(cfg, s, Act(i, ev, o))
    ensures DecisionsBacked(cfg, Next(cfg, s, Act(i, ev, o)))
  {
    hide Step;
    var n, e := s.nodes[i], Step(s.nodes[i], ev, o);
    var s' := Record(s, i, e);
    StepCommitsWhatItHolds(n, ev, o, s.net);
    forall d | d in s'.decisions ensures CommitBacked(s'.net, cfg.valsAt(d.view.sequence), d.view, d.digest) {
      if d !in s.decisions {
        HeldCommitsBack(s.net, n.vals, d.view, d.digest, e.call.value.commits);
      }
      CommitBackedGrows(s.net, s'.net, cfg.valsAt(d.view.sequence), d.view, d.digest);
    }
  }

  lemma LockStaysBacked(net: set<Message>, net': set<Message>, n: Node, n': Node, r: nat)
    requires LockFrom(net, n, r) && net <= net'
    requires n'.sequence == n.sequence && n'.vals == n.vals && n'.locked == n.locked && n'.round >= n.round
    ensures LockFrom(net', n', r)
  {
    BackedGrows(net, net', n.vals, View(n.sequence, r), n.locked);
  }

  /** Locks are kept within a sequence and taken only on a quorum. */
  lemma StepKeepsLockBacked(cfg: Config, s: State, i: Id, ev: Event, o: Oracle)
    requires Grounded(cfg, s) && Enabled(cfg, s, Act(i, ev, o))
    ensures LockBacked(Next(cfg, s, Act(i, ev, o)), Step(s.nodes[i], ev, o).node)
  {
    hide Step;
    var n, e := s.nodes[i], Step(s.nodes[i], ev, o);
    var s', n' := Record(s, i, e), e.node;
    StepMovesNoLock(n, ev, o);
    StepIsMonotone(n, ev, o);
    StepKeepsRoundVals(n, ev, o);
    if n'.IsLocked() {
      if n.IsLocked() {
        var r :| LockFrom(s.net, n, r);
        LockStaysBacked(s.net, s'.net, n, n', r);
      } else {
        StepLocksWithQuorum(n, ev, o);
        StepKeepsInv(n, ev, o);
        StepStoresOnlySent(n, ev, o, s.net);
        HeldMessagesBack(s.net, n');
        BackedGrows(s.net, s'.net, n'.vals, n'.CurrentView(), n'.locked);
        assert LockFrom(s'.net, n', n'.round);
      }
    }
  }

  lemma StepKeepsRoundVals(n: Node, ev: Event, o: Oracle)
    requires NodeInv(n)
    ensures var n' := Step(n, ev, o).node; n'.sequence == n.sequence ==> n'.vals == n.vals
  {
    hide Step;
    StepMoves(n, ev, o);
  }

  lemma NextKeepsGrounded(cfg: Config, s: State, a: Action)
    requires Grounded(cfg, s) && Enabled(cfg, s, a)
    ensures Grounded(cfg, Next(cfg, s, a))
  {
    hide Step;
    var s' := Next(cfg, s, a);
    NextKeepsSound(cfg, s, a);
    forall j | j in cfg.honest && (a.Act? ==> j != a.node) ensures LockBacked(s', s'.nodes[j]) {
      var n := s.nodes[j];
      if n.IsLocked() {
        var r :| LockFrom(s.net, n, r);
        LockStaysBacked(s.net, s'.net, n, n, r);
      }
    }
    match a {
      case Inject(m) =>
        forall d | d in s'.decisions ensures CommitBacked(s'.net, cfg.valsAt(d.view.sequence), d.view, d.digest) {
          CommitBackedGrows(s.net, s'.net, cfg.valsAt(d.view.sequence), d.view, d.digest);
        }
      case Act(i, ev, o) =>
        StepDecidesWithQuorum(cfg, s, i, ev, o);
        StepKeepsLockBacked(cfg, s, i, ev, o);
    }
  }

  lemma {:induction false} RunIsGrounded(cfg: Config, ss: seq<State>, acts: seq<Action>, k: nat)
    requires IsRun(cfg, ss, acts) && k <= |acts|
    ensures Grounded(cfg, ss[k])
  {
    hide Step;
    if k == 0 {
      InitIsSound(cfg, ss[0]);
      forall i | i in cfg.honest ensures LockBacked(ss[0], ss[0].nodes[i]) {
        var policy, last :| Booted(cfg, ss[0].nodes[i], i, policy, last);
      }
    } else {
      RunIsGrounded(cfg, ss, acts, k - 1);
      NextKeepsGrounded(cfg, ss[k - 1], acts[k - 1]);
      assert ss[k] == ss[k - 1 + 1];
    }
  }

  lemma ReachableIsGrounded(cfg: Config, s: State)
    requires Reachable(cfg, s)
    ensures Grounded(cfg, s)
  {
    var ss, acts :| IsRun(cfg, ss, acts) && s == ss[|acts|];
    RunIsGrounded(cfg, ss, acts, |acts|);
  }

  // ----- the theorems -----

  /** No honest node has sent an old-block reply about the sequence. */
  ghost predicate NoOldReplies(cfg: Config, s: State, sequence: nat) {
    forall i :: i in cfg.honest ==> (i, sequence) !in s.replied
  }

  /** No honest node has dropped a lock at the sequence. */
  ghost predicate NoDrops(cfg: Config, s: State, sequence: nat) {
    forall i :: i in cfg.honest ==> (i, sequence) !in s.dropped
  }

  /** Honest nodes that sent no old-block reply about the sequence. */
  ghost function Plain(cfg: Config, s: State, sequence: nat): set<Id> {
    set i | i in cfg.honest && (i, sequence) !in s.replied
  }

  /** Honest nodes that neither sent an old-block reply about the sequence nor dropped a lock there. */
  ghost function Steady(cfg: Config, s: State, sequence: nat): set<Id> {
    set i | i in cfg.honest && Clean(s, i, sequence)
  }

  /** The distinct validators of the sequence outside `good` are fewer than two quorums share at the least. */
  ghost predicate Trusted(cfg: Config, sequence: nat, good: set<Id>) {
    var vals := cfg.valsAt(sequence);
    vals != [] && Distinct(vals) && |Members(vals) - good| < Spare(|vals|)
  }

  /** A safe size, at most f faults, and nothing untoward at the sequence are one way to be trusted. */
  lemma CleanMeansTrusted(cfg: Config, s: State, sequence: nat)
    requires FaultBound(cfg, sequence) && SafeSize(|cfg.valsAt(sequence)|)
    requires NoOldReplies(cfg, s, sequence) && NoDrops(cfg, s, sequence)
    ensures Trusted(cfg, sequence, Steady(cfg, s, sequence)) && Trusted(cfg, sequence, Plain(cfg, s, sequence))
  {
    SafeSizeMeansSpare(|cfg.valsAt(sequence)|);
    assert Steady(cfg, s, sequence) == cfg.honest == Plain(cfg, s, sequence);
  }

  lemma SharedGood(cfg: Config, sequence: nat, good: set<Id>, a: set<Id>, b: set<Id>) returns (k: Id)
    requires Trusted(cfg, sequence, good)
    requires a <= Members(cfg.valsAt(sequence)) && b <= Members(cfg.valsAt(sequence))
    requires ReachThreshold(|cfg.valsAt(sequence)|, |a|) && ReachThreshold(|cfg.valsAt(sequence)|, |b|)
    ensures k in a && k in b && k in good
  {
    var vals := cfg.valsAt(sequence);
    DistinctSize(vals);
    assert vals[0] in Members(vals);
    k := SharedMember(Members(vals), good, a, b);
  }

  /** What every honest node has sent so far binds it. */
  lemma HonestHistory(cfg: Config, s: State)
    requires Reachable(cfg, s)
    ensures forall i :: i in cfg.honest ==>
              i in s.nodes && s.nodes[i].id == i && OneDigestPerView(s, i) && CommitsBind(s, i)
  {
    ReachableIsGrounded(cfg, s);
  }

  /**
   * Agreement inside a view, timeouts and dropped locks included: two quorums of matching
   * PREPAREs and COMMITs of one view name the same digest.
   */
  lemma AgreementInView(cfg: Config, s: State, view: View, d: Hash, d': Hash)
    ensures
      Reachable(cfg, s) && Trusted(cfg, view.sequence, Plain(cfg, s, view.sequence))
      && Backed(s.net, cfg.valsAt(view.sequence), view, d) && Backed(s.net, cfg.valsAt(view.sequence), view, d')
      ==> d == d'
  {
    hide Reachable;
    var vals := cfg.valsAt(view.sequence);
    var good := Plain(cfg, s, view.sequence);
    if Reachable(cfg, s) && Trusted(cfg, view.sequence, good)
       && Backed(s.net, vals, view, d) && Backed(s.net, vals, view, d') {
      HonestHistory(cfg, s);
      var k := SharedGood(cfg, view.sequence, good, Backers(s.net, vals, view, d), Backers(s.net, vals, view, d'));
      var m :| m in s.net && IsSupport(m) && m.from == k && m.view == view && m.digest == d;
      var m' :| m' in s.net && IsSupport(m') && m'.from == k && m'.view == view && m'.digest == d';
      OneHonestDigest(s, k, m, m');
    }
  }

  lemma OneHonestDigest(s: State, i: Id, m: Message, m': Message)
    requires m in s.net && IsSupport(m) && m.from == i
    requires m' in s.net && IsSupport(m') && m'.from == i
    requires m.view == m'.view && (i, m.view.sequence) !in s.replied && OneDigestPerView(s, i)
    ensures m.digest == m'.digest
  {
    assert Supported(s, i, m) && Supported(s, i, m');
  }

  lemma OneHonestCommitBinds(s: State, i: Id, m: Message, m': Message)
    requires m in s.net && m.CommitMsg? && m.from == i
    requires OneDigestPerView(s, i) && CommitsBind(s, i) && Clean(s, i, m.view.sequence)
    requires m' in s.net && IsSupport(m') && m'.from == i
    requires m.view.sequence == m'.view.sequence && m.view.round <= m'.view.round
    ensures m.digest == m'.digest
  {
    assert Supported(s, i, m) && Supported(s, i, m');
    if m.view.round == m'.view.round { assert m.view == m'.view; }
  }

  /** A committed digest and any quorum of the same or a later round of the sequence agree. */
  lemma CommitBindsLaterQuorums(cfg: Config, s: State, view: View, d: Hash, round: nat, d': Hash)
    ensures
      Reachable(cfg, s) && Trusted(cfg, view.sequence, Steady(cfg, s, view.sequence))
      && CommitBacked(s.net, cfg.valsAt(view.sequence), view, d)
      && view.round <= round && Backed(s.net, cfg.valsAt(view.sequence), View(view.sequence, round), d')
      ==> d == d'
  {
    hide Reachable;
    var vals, view' := cfg.valsAt(view.sequence), View(view.sequence, round);
    var good := Steady(cfg, s, view.sequence);
    if Reachable(cfg, s) && Trusted(cfg, view.sequence, good)
       && CommitBacked(s.net, vals, view, d) && view.round <= round && Backed(s.net, vals, view', d') {
      HonestHistory(cfg, s);
      var k := SharedGood(cfg, view.sequence, good,
                          Committers(s.net, vals, view, d), Backers(s.net, vals, view', d'));
      var m :| m in s.net && m.CommitMsg? && m.from == k && m.view == view && m.digest == d;
      var m' :| m' in s.net && IsSupport(m') && m'.from == k && m'.view == view' && m'.digest == d';
      OneHonestCommitBinds(s, k, m, m');
    }
  }

  /**
   * Agreement across rounds: as long as faulty validators and those that dropped a lock at the
   * sequence or sent an old-block reply about it are together fewer than two quorums share,
   * honest nodes commit one digest there, whatever their rounds.
   */
  lemma AgreementAcrossRounds(cfg: Config, s: State, a: Decision, b: Decision)
    ensures
      Reachable(cfg, s) && a in s.decisions && b in s.decisions && a.view.sequence == b.view.sequence
      && Trusted(cfg, a.view.sequence, Steady(cfg, s, a.view.sequence))
      ==> a.digest == b.digest
  {
    hide Reachable, Trusted;
    if Reachable(cfg, s) && a in s.decisions && b in s.decisions && a.view.sequence == b.view.sequence {
      ReachableIsGrounded(cfg, s);
      var vals := cfg.valsAt(a.view.sequence);
      CommitsAlsoBack(s.net, vals, a.view, a.digest);
      CommitsAlsoBack(s.net, vals, b.view, b.digest);
      if a.view.round <= b.view.round {
        CommitBindsLaterQuorums(cfg, s, a.view, a.digest, b.view.round, b.digest);
      } else {
        CommitBindsLaterQuorums(cfg, s, b.view, b.digest, a.view.round, a.digest);
      }
    }
  }

  /** Decisions taken in one view agree even when locks were dropped. */
  lemma DecisionsInViewAgree(cfg: Config, s: State, a: Decision, b: Decision)
    ensures
      Reachable(cfg, s) && a in s.decisions && b in s.decisions && a.view == b.view
      && Trusted(cfg, a.view.sequence, Plain(cfg, s, a.view.sequence))
      ==> a.digest == b.digest
  {
    hide Reachable, Trusted;
    if Reachable(cfg, s) && a in s.decisions && b in s.decisions && a.view == b.view {
      ReachableIsGrounded(cfg, s);
      CommitsAlsoBack(s.net, cfg.valsAt(a.view.sequence), a.view, a.digest);
      CommitsAlsoBack(s.net, cfg.valsAt(a.view.sequence), b.view, b.digest);
      AgreementInView(cfg, s, a.view, a.digest, b.digest);
    }
  }

  /** Lock provenance: an honest node's lock had a quorum at a round of its sequence up to its own. */
  lemma LocksComeFromQuorums(cfg: Config, s: State, i: Id)
    requires Reachable(cfg, s) && i in cfg.honest && i in s.nodes && s.nodes[i].IsLocked()
    ensures var n := s.nodes[i];
            exists r :: 0 <= r <= n.round && Backed(s.net, cfg.valsAt(n.sequence), View(n.sequence, r), n.locked)
  {
    ReachableIsGrounded(cfg, s);
    var n := s.nodes[i];
    var r :| LockFrom(s.net, n, r);
    assert Backed(s.net, cfg.valsAt(n.sequence), View(n.sequence, r), n.locked);
  }

  /** Honest COMMITs that are not old-block replies carry the sender's seal over their digest. */
  lemma HonestSealsAreGenuine(cfg: Config, s: State, m: Message)
    requires Reachable(cfg, s) && m in s.net && m.CommitMsg? && m.from in cfg.honest
    requires (m.from, m.view.sequence) !in s.replied
    ensures m.seal == Some(Seal(m.from, m.digest))
  {
    ReachableIsGrounded(cfg, s);
    assert Supported(s, s.nodes[m.from].id, m);
  }
}
