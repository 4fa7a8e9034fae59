/** Exactly when the cluster agrees: the runs that break agreement, set against the theorems that keep it. */
module Exactness {
  import opened Protocol
  import opened Quorum
  import opened Selector
  import opened Cluster
  import opened Agreement
  import opened Validity
  import opened Scenes
  import opened Progress

  // ----- two commits -----

  /**
   * Two camps commit two blocks, one after the other. Locks are dropped only by nodes in both camps,
   * and nobody sends an old-block reply.
   */
  lemma TwoCommits(c: Scene, g1: set<Id>, q1: set<Id>, x1: Id, g2: set<Id>, q2: set<Id>, x2: Id)
    returns (s: State, r1: nat, r2: nat)
    requires c == Opening(c.cfg, c.policy, c.height, c.last) && c.Sane() && |c.Vals()| < TWO_63
    requires Camp(c, g1, q1, x1) && Camp(c, g2, q2, x2)
    ensures Reachable(c.cfg, s) && s.replied == {}
    ensures Decision(x1, c.At(r1), 1, true) in s.decisions && Decision(x2, c.At(r2), 2, true) in s.decisions
    ensures forall i, sequence :: (i, sequence) in s.dropped ==> i in g1 * g2
  {
    hide Reachable, Reached, Ready, Works, Opening, Start, Pick, Quota;
    OpeningIsReachable(c.cfg, c.policy, c.height, c.last);
    var t: State;
    t, r1 := CampCommits(c, c.origin, g1, q1, x1, 1);
    s, r2 := CampCommits(c, t, g2, q2, x2, 2);
    ReachedIsReachable(c, s);
  }

  /** Two disjoint camps commit two blocks in one view, both requested from its proposer. */
  lemma TwoCommitsInView(c: Scene, g1: set<Id>, q1: set<Id>, x1: Id, g2: set<Id>, q2: set<Id>, x2: Id)
    returns (s: State)
    requires c == Opening(c.cfg, c.policy, c.height, c.last) && c.Sane()
    requires Camp(c, g1, q1, x1) && Camp(c, g2, q2, x2) && g1 !! g2
    ensures Reachable(c.cfg, s) && s.replied == {} && s.dropped == {}
    ensures Decision(x1, c.At(0), 1, true) in s.decisions && Decision(x2, c.At(0), 2, true) in s.decisions
  {
    hide Reachable, Reached, Ready, Works, Opening, Start, Fresh, Pick, Backing, Quota, PrepareOf, CommitOf;
    BackingHas(c, q1, 0, BlockOf(c, 1));
    BackingHas(c, q2, 0, BlockOf(c, 2));
    var t := BothProposed(c, Backing(c, q1, 0, BlockOf(c, 1)) + Backing(c, q2, 0, BlockOf(c, 2)));
    var u := GroupCommits(c, t, g1, 0, BlockOf(c, 1), q1, x1);
    s := GroupCommits(c, u, g2, 0, BlockOf(c, 2), q2, x2);
    OpeningIsReachable(c.cfg, c.policy, c.height, c.last);
    ReachedIsReachable(c, s);
  }

  /** Two blocks are proposed in round 0, and faulty validators have said what they have to say. */
  lemma BothProposed(c: Scene, ms: set<Message>) returns (s: State)
    requires c == Opening(c.cfg, c.policy, c.height, c.last) && c.Sane()
    requires forall m :: m in ms ==> m.from !in c.cfg.honest
    ensures Reached(c, s) && s.replied == {} && s.dropped == {} && ms <= s.net && s.nodes.Keys == c.cfg.honest
    ensures forall i :: i in c.cfg.honest ==> Ready(c, s.nodes[i], i, 0)
    ensures c.Proposer(0).Some?
    ensures PrePrepareMsg(c.Proposer(0).value, c.At(0), BlockOf(c, 1)) in s.net
    ensures PrePrepareMsg(c.Proposer(0).value, c.At(0), BlockOf(c, 2)) in s.net
  {
    hide Reachable, Reached, Ready, Works, Opening, Start, Fresh, Pick;
    OpeningIsReachable(c.cfg, c.policy, c.height, c.last);
    var t := InjectAll(c, c.origin, ms);
    var u := Propose(c, t, 0, BlockOf(c, 1));
    s := Propose(c, u, 0, BlockOf(c, 2));
  }

  // ----- the exact conditions -----

  /** Two blocks that backends of honest nodes have taken at the sequence. */
  ghost predicate TakenAt(s: State, a: Decision, b: Decision, sequence: nat) {
    a in s.decisions && b in s.decisions && a.accepted && b.accepted && a.view.sequence == sequence == b.view.sequence
  }

  /** All blocks taken at the sequence are one. */
  ghost predicate AgreesAt(s: State, sequence: nat) {
    forall a, b :: TakenAt(s, a, b, sequence) ==> a.digest == b.digest
  }

  /** All blocks taken in any one view of the sequence are one. */
  ghost predicate AgreesInViews(s: State, sequence: nat) {
    forall a, b :: TakenAt(s, a, b, sequence) && a.view == b.view ==> a.digest == b.digest
  }

  /** Nobody sent an old-block reply about the sequence, and only `droppers` dropped a lock there. */
  ghost predicate OnlyDrops(cfg: Config, s: State, sequence: nat, droppers: set<Id>) {
    NoOldReplies(cfg, s, sequence) && forall i :: i in cfg.honest && (i, sequence) in s.dropped ==> i in droppers
  }

  lemma TrustGrows(cfg: Config, sequence: nat, good: set<Id>, better: set<Id>)
    requires Trusted(cfg, sequence, good) && good <= better
    ensures Trusted(cfg, sequence, better)
  {
    var members := Members(cfg.valsAt(sequence));
    SubsetSize(members - better, members - good);
  }

  /** Two camps that share only droppers, when the validators beyond doubt are too few. */
  lemma TwoCamps(vals: seq<Id>, honest: set<Id>, droppers: set<Id>)
    returns (g1: set<Id>, q1: set<Id>, x1: Id, g2: set<Id>, q2: set<Id>, x2: Id)
    requires vals != [] && Distinct(vals) && droppers <= honest && (|honest| >= 2 || droppers != {})
    requires |Members(vals) - (honest - droppers)| >= Spare(|vals|)
    ensures q1 <= Members(vals) && q2 <= Members(vals) && |q1| == |q2| == Quota(|vals|)
    ensures q1 * honest <= g1 <= honest && q2 * honest <= g2 <= honest && x1 in g1 && x2 in g2
    ensures g1 * g2 <= droppers
  {
    DistinctSize(vals);
    assert vals[0] in Members(vals);
    q1, q2 := SplitQuorums(Members(vals), honest - droppers);
    g1, g2 := q1 * honest, q2 * honest;
    if g1 != {} && g2 != {} {
      x1 :| x1 in g1;
      x2 :| x2 in g2;
      forall i | i in g1 * g2 ensures i in droppers {
        assert i in q1 * q2 * (honest - droppers) || i in droppers;
      }
    } else {
      // one of the quorums is all faulty: it serves both camps, and any honest nodes complete them
      if g1 == {} { q2 := q1; } else { q1 := q2; }
      if droppers != {} {
        x1 :| x1 in droppers;
        x2 := x1;
      } else {
        x1 :| x1 in honest;
        assert |honest - {x1}| >= 1;
        x2 :| x2 in honest - {x1};
      }
      g1, g2 := {x1}, {x2};
    }
  }

  /** Nobody to disagree with: at most one honest node, and it keeps its locks. */
  ghost predicate Alone(cfg: Config, droppers: set<Id>) {
    |cfg.honest| <= 1 && droppers == {}
  }

  lemma OnlyOne(honest: set<Id>, x: Id, y: Id)
    requires |honest| <= 1 && x in honest && y in honest
    ensures x == y
  {
    SubsetSize({x, y}, honest);
  }

  /**
   * Agreement across rounds, exactly: over all runs in which only the given honest nodes drop a
   * lock at the sequence and nobody replies to old blocks, the backends of honest nodes take one
   * block there if and only if the validators that are faulty or droppers are fewer than two quorums
   * share, or there is only one honest node and it keeps its locks.
   */
  lemma AgreementExactly(cfg: Config, sequence: nat, droppers: set<Id>)
    requires var vals := cfg.valsAt(sequence); sequence >= 1 && vals != [] && Distinct(vals) && |vals| < TWO_63
    requires droppers <= cfg.honest
    ensures Trusted(cfg, sequence, cfg.honest - droppers) || Alone(cfg, droppers) <==>
            forall s :: Reachable(cfg, s) && OnlyDrops(cfg, s, sequence, droppers) ==> AgreesAt(s, sequence)
  {
    hide Reachable, Trusted;
    var good := cfg.honest - droppers;
    if Trusted(cfg, sequence, good) || Alone(cfg, droppers) {
      forall s | Reachable(cfg, s) && OnlyDrops(cfg, s, sequence, droppers) ensures AgreesAt(s, sequence) {
        forall a, b | TakenAt(s, a, b, sequence) ensures a.digest == b.digest {
          if Trusted(cfg, sequence, good) {
            TrustGrows(cfg, sequence, good, Steady(cfg, s, sequence));
            AgreementAcrossRounds(cfg, s, a, b);
          } else {
            AloneAgrees(cfg, s, a, b);
          }
        }
      }
    } else {
      var s := Disagreement(cfg, sequence, droppers);
      assert Reachable(cfg, s) && OnlyDrops(cfg, s, sequence, droppers) && !AgreesAt(s, sequence);
    }
  }

  lemma AloneAgrees(cfg: Config, s: State, a: Decision, b: Decision)
    requires Reachable(cfg, s) && |cfg.honest| <= 1 && TakenAt(s, a, b, a.view.sequence)
    requires a.view == b.view || OnlyDrops(cfg, s, a.view.sequence, {})
    ensures a.digest == b.digest
  {
    hide Reachable;
    OneBlockTaken(cfg, s, a, a);
    OneBlockTaken(cfg, s, b, b);
    OnlyOne(cfg.honest, a.node, b.node);
    OneBlockTaken(cfg, s, a, b);
  }

  lemma Disagreement(cfg: Config, sequence: nat, droppers: set<Id>) returns (s: State)
    requires var vals := cfg.valsAt(sequence); sequence >= 1 && vals != [] && Distinct(vals) && |vals| < TWO_63
    requires droppers <= cfg.honest && !Alone(cfg, droppers) && !Trusted(cfg, sequence, cfg.honest - droppers)
    ensures Reachable(cfg, s) && OnlyDrops(cfg, s, sequence, droppers) && !AgreesAt(s, sequence)
  {
    hide Reachable, Pick, Quota;
    var g1, q1, x1, g2, q2, x2 := TwoCamps(cfg.valsAt(sequence), cfg.honest, droppers);
    var c := Opening(cfg, RoundRobin, sequence - 1, "");
    var r1, r2: nat;
    s, r1, r2 := TwoCommits(c, g1, q1, x1, g2, q2, x2);
    assert TakenAt(s, Decision(x1, c.At(r1), 1, true), Decision(x2, c.At(r2), 2, true), sequence);
  }

  /** Agreement inside views, exactly: the same with any locks dropped, and the bound on the faulty alone. */
  lemma AgreementInViewsExactly(cfg: Config, sequence: nat)
    requires var vals := cfg.valsAt(sequence); sequence >= 1 && vals != [] && Distinct(vals)
    ensures Trusted(cfg, sequence, cfg.honest) || |cfg.honest| <= 1 <==>
            forall s :: Reachable(cfg, s) && NoOldReplies(cfg, s, sequence) ==> AgreesInViews(s, sequence)
  {
    hide Reachable, Trusted;
    if Trusted(cfg, sequence, cfg.honest) || |cfg.honest| <= 1 {
      forall s | Reachable(cfg, s) && NoOldReplies(cfg, s, sequence) ensures AgreesInViews(s, sequence) {
        assert Plain(cfg, s, sequence) == cfg.honest;
        forall a, b | TakenAt(s, a, b, sequence) && a.view == b.view ensures a.digest == b.digest {
          if Trusted(cfg, sequence, cfg.honest) {
            DecisionsInViewAgree(cfg, s, a, b);
          } else {
            AloneAgrees(cfg, s, a, b);
          }
        }
      }
    } else {
      var s := DisagreementInView(cfg, sequence);
      assert Reachable(cfg, s) && NoOldReplies(cfg, s, sequence) && !AgreesInViews(s, sequence);
    }
  }

  lemma DisagreementInView(cfg: Config, sequence: nat) returns (s: State)
    requires var vals := cfg.valsAt(sequence); sequence >= 1 && vals != [] && Distinct(vals)
    requires |cfg.honest| >= 2 && !Trusted(cfg, sequence, cfg.honest)
    ensures Reachable(cfg, s) && NoOldReplies(cfg, s, sequence) && NoDrops(cfg, s, sequence)
    ensures !AgreesInViews(s, sequence)
  {
    hide Reachable, Pick, Quota;
    assert cfg.honest - {} == cfg.honest;
    var g1, q1, x1, g2, q2, x2 := TwoCamps(cfg.valsAt(sequence), cfg.honest, {});
    var c := Opening(cfg, RoundRobin, sequence - 1, "");
    s := TwoCommitsInView(c, g1, q1, x1, g2, q2, x2);
    assert TakenAt(s, Decision(x1, c.At(0), 1, true), Decision(x2, c.At(0), 2, true), sequence);
  }

  /** A run with at most f faulty validators, no dropped lock and no old-block reply at the sequence. */
  ghost predicate CleanRun(cfg: Config, s: State, vals: seq<Id>, sequence: nat) {
    && cfg.valsAt(sequence) == vals && FaultBound(cfg, sequence) && Reachable(cfg, s)
    && NoOldReplies(cfg, s, sequence) && NoDrops(cfg, s, sequence)
  }

  /** The sizes at which clean runs always agree are 1, 2, 3 and those one more than a multiple of three. */
  lemma SafeSizesExactly(vals: seq<Id>, sequence: nat)
    requires vals != [] && Distinct(vals) && sequence >= 1
    ensures SafeSize(|vals|) <==> forall cfg, s :: CleanRun(cfg, s, vals, sequence) ==> AgreesAt(s, sequence)
  {
    hide Reachable;
    if SafeSize(|vals|) {
      forall cfg, s | CleanRun(cfg, s, vals, sequence) ensures AgreesAt(s, sequence) {
        CleanMeansTrusted(cfg, s, sequence);
        forall a, b | TakenAt(s, a, b, sequence) ensures a.digest == b.digest {
          AgreementAcrossRounds(cfg, s, a, b);
        }
      }
    } else {
      var cfg, s := UnsafeSize(vals, sequence);
      assert CleanRun(cfg, s, vals, sequence) && !AgreesAt(s, sequence);
    }
  }

  lemma UnsafeSize(vals: seq<Id>, sequence: nat) returns (cfg: Config, s: State)
    requires vals != [] && Distinct(vals) && sequence >= 1 && !SafeSize(|vals|)
    ensures CleanRun(cfg, s, vals, sequence) && !AgreesAt(s, sequence)
  {
    hide Reachable;
    var f := FaultTolerantNum(|vals|);
    DistinctSize(vals);
    SafeSizeMeansSpare(|vals|);
    var faulty := SubsetOfSize(Members(vals), f);
    var honest := Members(vals) - faulty;
    assert Members(vals) - honest == faulty;
    assert |honest| == |vals| - f;
    cfg := Config(honest, q => vals);
    s := DisagreementInView(cfg, sequence);
    var a, b :| TakenAt(s, a, b, sequence) && a.view == b.view && a.digest != b.digest;
  }

  /** The bound on droppers is tight: of four validators, none faulty, two that time out undo agreement. */
  lemma TwoDroppersOfFour(vals: seq<Id>, droppers: set<Id>, sequence: nat) returns (s: State)
    requires |vals| == 4 && Distinct(vals) && droppers <= Members(vals) && |droppers| == 2 && sequence >= 1
    ensures var cfg := Config(Members(vals), q => vals);
            Reachable(cfg, s) && OnlyDrops(cfg, s, sequence, droppers) && !AgreesAt(s, sequence)
  {
    hide Reachable;
    DistinctSize(vals);
    var cfg := Config(Members(vals), q => vals);
    assert Members(vals) - (Members(vals) - droppers) == droppers;
    s := Disagreement(cfg, sequence, droppers);
  }
}
