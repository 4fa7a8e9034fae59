/** Runs that show which hypotheses of the safety theorems are needed, and that they can be met. */
module Limits {
  import opened Protocol
  import opened Quorum
  import opened Selector
  import opened NodeSpec
  import opened NodeLaws
  import opened Cluster
  import opened Agreement
  import opened RoundBounds
  import opened Scenes
  import opened Progress
  import opened Exactness

  /** The hypotheses of agreement can hold together with a commit: any quorum of honest nodes reaches one. */
  lemma CleanRunDecides(cfg: Config, height: nat, q: set<Id>, x: Id, hash: BlockHash) returns (s: State)
    requires var c := Opening(cfg, RoundRobin, height, ""); c.Sane() && c.IsQuorum(q) && q <= cfg.honest && x in q
    ensures Reachable(cfg, s) && Decision(x, View(height + 1, 0), hash, true) in s.decisions
    ensures NoDrops(cfg, s, height + 1) && NoOldReplies(cfg, s, height + 1)
  {
    hide Reachable, Reached, Ready, Works, Opening, Start, Fresh, Pick, Quota, PrepareOf, CommitOf;
    var c := Opening(cfg, RoundRobin, height, "");
    OpeningIsReachable(cfg, RoundRobin, height, "");
    OpeningKeeps(cfg, RoundRobin, height, "");
    var p := BlockOf(c, hash);
    var t := Propose(c, c.origin, 0, p);
    s := GroupCommits(c, t, q, 0, p, q, x);
    ReachedIsReachable(c, s);
  }

  lemma OpeningKeeps(cfg: Config, policy: Policy, height: nat, last: Id)
    ensures var c := Opening(cfg, policy, height, last);
            c.cfg == cfg && c.policy == policy && c.height == height && c.last == last
  {
  }

  ghost function SoloConfig(v: Id): Config {
    Config({v}, sequence => [v])
  }

  /**
   * Without a bound on dropped locks agreement fails: a lone honest validator, no fault and no
   * old-block reply, commits two blocks at one sequence after timeouts.
   */
  lemma DroppedLockBreaksAgreement(v: Id) returns (s: State)
    ensures Reachable(SoloConfig(v), s) && FaultBound(SoloConfig(v), 1) && SafeSize(|SoloConfig(v).valsAt(1)|)
    ensures OnlyDrops(SoloConfig(v), s, 1, {v}) && !AgreesAt(s, 1)
  {
    hide Reachable;
    assert Members([v]) == {v};
    s := Disagreement(SoloConfig(v), 1, {v});
  }

  // ----- rounds that do not fit their key -----

  ghost function Asking(v: Id, round: nat): Message {
    RoundChangeMsg(v, View(1, round), NIL_HASH)
  }

  /** Four validators, of which "d" is faulty. */
  ghost function FourWithOneFaulty(): Scene {
    Opening(Config({"a", "b", "c"}, sequence => ["a", "b", "c", "d"]), RoundRobin, 0, "")
  }

  /** Validator "a" in round 0, holding some ROUND CHANGEs for round 1. */
  ghost function Asked(ms: MessageMap): Node {
    Fresh(FourWithOneFaulty(), "a", 0, None).(roundChanges := if ms == map[] then map[] else map[1 := ms])
  }

  lemma OneMoreAsker(ms: MessageMap, v: Id, round: nat)
    requires v in FourWithOneFaulty().Vals() && Low64(round) == 1
    ensures var e := Step(Asked(ms), Deliver(Asking(v, round)), FourWithOneFaulty().Says());
            var more := ms[v := Asking(v, round)];
            && e.out.None? && e.call.None?
            && if |more| >= 3 then e.node.round == round && e.node.sequence == 1 else e.node == Asked(more)
  {
    hide Pick;
    var n, m := Asked(ms), Asking(v, round);
    var more := ms[v := m];
    assert AddRoundChange(n.roundChanges, n.vals, m) == map[1 := more];
    assert FaultTolerantNum(|n.vals|) == 1;
  }

  lemma FourAreBound()
    ensures FaultBound(FourWithOneFaulty().cfg, 1)
  {
    var cfg := FourWithOneFaulty().cfg;
    assert Members(cfg.valsAt(1)) - cfg.honest == {"d"};
  }

  /** Node "a" holds the given ROUND CHANGEs, and honest nodes have entered rounds 0 and 1. */
  ghost predicate Stands(s: State, ms: MessageMap, net: set<Message>) {
    && Reached(FourWithOneFaulty(), s) && s.nodes.Keys == {"a", "b", "c"}
    && s.nodes["a"] == Asked(ms) && s.net == net && s.entered == {View(1, 0), View(1, 1)}
  }

  ghost function AllAsking(): set<Message> { {Asking("b", 1), Asking("c", 1), Asking("d", TWO_64 + 1)} }

  lemma OneTimesOut() returns (s: State)
    ensures Stands(s, map[], {Asking("b", 1)})
    ensures s.nodes["c"] == Fresh(FourWithOneFaulty(), "c", 0, None)
  {
    hide Step, Reached, Pick, Fresh, Asked, Works, Ready, Opening, Start, FourWithOneFaulty;
    var c := FourWithOneFaulty();
    ReadyToAsk();
    OpeningIsReachable(c.cfg, c.policy, c.height, c.last);
    s := TimesOutOpenly(c, c.origin, "b");
    assert s.net == {} + {AskOf("b", c.At(1))};
    assert s.entered == {View(1, 0)} + {c.At(1)};
    assert s.nodes["a"] == c.origin.nodes["a"] && s.nodes["c"] == c.origin.nodes["c"];
  }

  lemma TwoTimeOut() returns (s: State)
    ensures Stands(s, map[], {Asking("b", 1), Asking("c", 1)})
  {
    hide Step, Reached, Pick, Fresh, Asked, Opening, Start, FourWithOneFaulty;
    var c := FourWithOneFaulty();
    ReadyToAsk();
    var t := OneTimesOut();
    s := TimesOutOpenly(c, t, "c");
    assert s.net == {AskOf("b", c.At(1))} + {AskOf("c", c.At(1))};
    assert s.entered == {View(1, 0), View(1, 1)} + {c.At(1)};
    assert s.nodes["a"] == t.nodes["a"];
  }

  /** A timeout in round 0 of a node that collected no round changes. */
  lemma TimesOutOpenly(c: Scene, s: State, v: Id) returns (s': State)
    requires Reached(c, s) && v in c.cfg.honest && v in s.nodes && s.nodes[v] == Fresh(c, v, 0, None)
    ensures Reached(c, s') && Grows(s, s', {v})
    ensures s'.net == s.net + {AskOf(v, c.At(1))} && s'.entered == s.entered + {c.At(1)}
  {
    hide Step, Reached, Pick;
    var e := Step(s.nodes[v], Timeout, c.Says());
    TimeoutStep(c, s.nodes[v], v);
    FreshGoesUpByOne(c, v);
    s' := Take(c, s, v, Timeout, e);
  }

  lemma FreshGoesUpByOne(c: Scene, v: Id)
    ensures Step(Fresh(c, v, 0, None), Timeout, c.Says()).node.round == 1
  {
    hide Pick;
  }

  lemma AskedOf(s: State, ms: MessageMap, net: set<Message>, v: Id) returns (s': State)
    requires Stands(s, ms, net) && Asking(v, 1) in net && v in {"b", "c"} && |ms[v := Asking(v, 1)]| < 3
    ensures Stands(s', ms[v := Asking(v, 1)], net)
  {
    hide Step, Reached;
    OneMoreAsker(ms, v, 1);
    hide Asked;
    var c := FourWithOneFaulty();
    AskedView(ms[v := Asking(v, 1)]);
    s' := Take(c, s, "a", Deliver(Asking(v, 1)), Step(s.nodes["a"], Deliver(Asking(v, 1)), c.Says()));
  }

  lemma AskedView(ms: MessageMap)
    ensures Asked(ms).CurrentView() == View(1, 0)
  {
  }

  /** Two honest validators have asked for round 1, and the faulty one for round 2^64 + 1. */
  lemma AskedState() returns (s: State)
    ensures Stands(s, map["b" := Asking("b", 1), "c" := Asking("c", 1)], AllAsking())
  {
    var s1 := TwoTimeOut();
    hide Reached, Asked;
    var s2 := InjectAll(FourWithOneFaulty(), s1, {Asking("d", TWO_64 + 1)});
    var one := map["b" := Asking("b", 1)];
    assert |one| == 1;
    var s3 := AskedOf(s2, map[], AllAsking(), "b");
    var two := one["c" := Asking("c", 1)];
    assert two.Keys == {"b", "c"} && |two| == |two.Keys|;
    s := AskedOf(s3, one, AllAsking(), "c");
  }

  lemma ReadyToAsk()
    ensures var c := FourWithOneFaulty();
            && c.cfg.honest == {"a", "b", "c"} && c.height == 0 && Asked(map[]) == c.origin.nodes["a"]
            && c.origin.entered == {View(1, 0)} && c == Opening(c.cfg, c.policy, c.height, c.last)
  {
    assert "a" in FourWithOneFaulty().cfg.honest;
  }

  lemma LastAsker()
    ensures var n := Asked(map["b" := Asking("b", 1), "c" := Asking("c", 1)]);
            Step(n, Deliver(Asking("d", TWO_64 + 1)), FourWithOneFaulty().Says()).node.CurrentView()
            == View(1, TWO_64 + 1)
  {
    hide Step, Asked, Start, Fresh;
    var ms := map["b" := Asking("b", 1), "c" := Asking("c", 1)];
    var all := ms["d" := Asking("d", TWO_64 + 1)];
    assert all.Keys == {"b", "c", "d"} && |all| == |all.Keys|;
    OneMoreAsker(ms, "d", TWO_64 + 1);
  }

  /**
   * Round changes are grouped by the low 64 bits of their round, so one faulty message about
   * round 2^64 + 1 completes the group of round 1 and an honest node enters that far round alone.
   */
  lemma WideRoundSkipsRounds() returns (s: State, a: Action)
    ensures Skips(FourWithOneFaulty().cfg, s, a, 1, TWO_64 + 1) && RoundsWithin(s, TWO_64 + 1)
  {
    hide Step, Reachable, FaultBound, Next, Asked, Low64, Opening, Stands, Enabled;
    s := AskedState();
    AskedStateHas(s);
    FourAreBound();
    LastAsker();
    a := Act("a", Deliver(Asking("d", TWO_64 + 1)), FourWithOneFaulty().Says());
    EntersOwnView(FourWithOneFaulty().cfg, s, a);
  }

  lemma AskedStateHas(s: State)
    requires Stands(s, map["b" := Asking("b", 1), "c" := Asking("c", 1)], AllAsking())
    ensures Reachable(FourWithOneFaulty().cfg, s) && RoundsWithin(s, TWO_64 + 1)
    ensures "a" in s.nodes && s.nodes["a"] == Asked(map["b" := Asking("b", 1), "c" := Asking("c", 1)])
    ensures Enabled(FourWithOneFaulty().cfg, s,
                    Act("a", Deliver(Asking("d", TWO_64 + 1)), FourWithOneFaulty().Says()))
    ensures s.entered == {View(1, 0), View(1, 1)}
  {
    hide Reachable, Reached, Asked, Start, Fresh;
    OpeningIsReachable(FourWithOneFaulty().cfg, RoundRobin, 0, "");
    ReachedIsReachable(FourWithOneFaulty(), s);
  }

  lemma EntersOwnView(cfg: Config, s: State, a: Action)
    requires Enabled(cfg, s, a) && a.Act?
    ensures Next(cfg, s, a).entered == s.entered + {Step(s.nodes[a.node], a.ev, a.oracle).node.CurrentView()}
  {
    hide Step;
  }

  /** No round is ever skipped, by any cluster with at most f faults, exactly up to rounds of 2^64. */
  lemma RoundsAreNotSkippedExactly(bound: nat)
    ensures bound <= TWO_64 <==>
            forall cfg, s, a, sequence, r :: RoundsWithin(s, bound) ==> !Skips(cfg, s, a, sequence, r)
  {
    hide Skips;
    if bound <= TWO_64 {
      forall cfg, s, a, sequence, r | RoundsWithin(s, bound) ensures !Skips(cfg, s, a, sequence, r) {
        NewRoundIsNext(cfg, s, a, sequence, r);
      }
    } else {
      var s, a := WideRoundSkipsRounds();
      assert RoundsWithin(s, bound);
    }
  }

  /** Validator "a" with two validators asking it for round 2^63. */
  ghost function AskedForLarge(): Node {
    Fresh(FourWithOneFaulty(), "a", 0, None).(
      roundChanges := map[TWO_63 := map["b" := Asking("b", TWO_63), "c" := Asking("c", TWO_63)]])
  }

  lemma AskedForLargeHolds()
    ensures var n := AskedForLarge();
            NodeInv(n) && forall k :: HasAtLeast(n.roundChanges, 2, k) <==> k == TWO_63
  {
    hide Pick;
    var ms := map["b" := Asking("b", TWO_63), "c" := Asking("c", TWO_63)];
    assert ms.Keys == {"b", "c"} && |ms| == |ms.Keys|;
    assert KeyedSet(ms, AskedForLarge().vals, 1, TWO_63);
  }

  /** A round of 2^63 that two validators ask for is read as a negative number. */
  lemma LargeRoundIsMisread()
    ensures var n := AskedForLarge();
            && NodeInv(n) && MaxRound(n.roundChanges, 2) == Some(AsInt64(TWO_63)) && AsInt64(TWO_63) < 0
            && !IsGreatestAsked(n, 2, MaxRound(n.roundChanges, 2))
  {
    hide AskedForLarge, NodeInv, HasAtLeast;
    var n := AskedForLarge();
    AskedForLargeHolds();
    assert HasAtLeast(n.roundChanges, 2, TWO_63);
    MaxRoundIsUnique(n.roundChanges, 2, MaxRound(n.roundChanges, 2), Some(AsInt64(TWO_63)));
    MaxRoundIsGreatestExactly(n, 2);
  }
}
