/**
 * Progress: from any reachable state, nodes that make up a quorum have a run to a commit, whatever
 * rounds they are in, whatever they are locked on and whatever round changes they have collected.
 */
module Progress {
  import opened Protocol
  import opened Quorum
  import opened Selector
  import opened NodeSpec
  import opened NodeRuns
  import opened Cluster
  import opened Agreement
  import opened Scenes

  // ----- choosing a round -----

  /** From every round on there is one in which a given validator proposes. */
  lemma SomeRoundProposedBy(c: Scene, y: Id, bound: nat) returns (round: nat)
    requires c.Sane() && |c.Vals()| < TWO_63 && y in c.Vals()
    ensures round >= bound && c.Proposer(round) == Some(y)
  {
    hide Pick, Low64, Turn, Fair;
    var ids := c.Vals();
    var start := FairStart(Base(c.policy, ids, c.last), |ids|, bound);
    RotationIsFairExactly(c.policy, ids, c.last, start);
    var j := IndexOf(ids, y);
    FairReachesAll(c.policy, ids, c.last, start, j);
    var k :| 0 <= k < |ids| && Turn(c.policy, ids, c.last, start, k) == j;
    round := start + k;
    PickedInTurn(c.policy, ids, c.last, start, k);
  }

  /** From every round on a window of n rounds begins in which the seed does not wrap. */
  lemma FairStart(base: nat, n: nat, bound: nat) returns (start: nat)
    requires base <= n + 1 && 0 < n < TWO_63
    ensures start >= bound && Low64(base + start) + n <= TWO_64
  {
    if Low64(base + bound) + n <= TWO_64 {
      start := bound;
    } else {
      start := TWO_64 * (bound + 1);
      ModShift(base, TWO_64, bound + 1);
    }
  }

  lemma PickedInTurn(policy: Policy, ids: seq<Id>, last: Id, start: nat, k: nat)
    requires ids != []
    ensures Turn(policy, ids, last, start, k) < |ids|
    ensures Pick(policy, ids, last, Low64(start + k)) == Some(ids[Turn(policy, ids, last, start, k)])
  {
  }

  lemma {:induction false} RoundsBelow(ns: map<Id, Node>, g: set<Id>) returns (bound: nat)
    requires g <= ns.Keys
    ensures forall i :: i in g ==> ns[i].round <= bound
    decreases g
  {
    bound := 0;
    if i :| i in g {
      var rest := RoundsBelow(ns, g - {i});
      bound := if ns[i].round <= rest then rest else ns[i].round;
    }
  }

  // ----- getting to a round -----

  /** Only locked nodes of the group have dropped a lock on the way. */
  ghost predicate DropsWithin(s: State, s': State, g: set<Id>) {
    forall i, sequence :: (i, sequence) in s'.dropped ==>
      (i, sequence) in s.dropped || (i in g && i in s.nodes && s.nodes[i].IsLocked())
  }

  /** The node waits in the round it is in and has asked for it. */
  ghost predicate Asking(c: Scene, s: State, i: Id)
    requires i in s.nodes
  {
    var n := s.nodes[i];
    Idle(c, n, i, n.round) && AskOf(i, c.At(n.round)) in s.net
  }

  lemma TimesOut(c: Scene, s: State, i: Id) returns (s': State)
    requires Reached(c, s) && i in c.cfg.honest && i in s.nodes && Works(c, s.nodes[i], i)
    ensures Reached(c, s') && Grows(s, s', {i}) && DropsWithin(s, s', {i}) && Asking(c, s', i)
    ensures s'.nodes[i].round > s.nodes[i].round
    ensures s.nodes[i].waiting ==> s'.nodes[i].round == s.nodes[i].round + 1
    ensures !s.nodes[i].IsLocked() ==> s'.dropped == s.dropped
  {
    hide Step, Reached, Works, Idle;
    TimeoutStep(c, s.nodes[i], i);
    s' := Take(c, s, i, Timeout, Step(s.nodes[i], Timeout, c.Says()));
  }

  /** Everyone in the group gives up its round. */
  lemma {:induction false} GroupTimesOut(c: Scene, s: State, g: set<Id>) returns (s': State)
    requires Reached(c, s) && g <= c.cfg.honest && g <= s.nodes.Keys
    requires forall i :: i in g ==> Works(c, s.nodes[i], i)
    ensures Reached(c, s') && Grows(s, s', g) && DropsWithin(s, s', g)
    ensures forall i :: i in g ==> Asking(c, s', i)
    decreases g
  {
    hide Reached, Works, Idle;
    if g == {} {
      s' := s;
    } else {
      var i :| i in g;
      var t := TimesOut(c, s, i);
      s' := GroupTimesOut(c, t, g - {i});
    }
  }

  lemma IdleIsFree(c: Scene, n: Node, i: Id, round: nat)
    requires Idle(c, n, i, round)
    ensures Works(c, n, i) && n.waiting && !n.IsLocked() && n.round == round
  {
  }

  /** A node that waits goes on to the round, one timeout at a time. */
  lemma {:induction false} GoesOn(c: Scene, s: State, i: Id, round: nat) returns (s': State)
    requires Reached(c, s) && i in c.cfg.honest && i in s.nodes && Asking(c, s, i) && s.nodes[i].round <= round
    ensures Onward(c, s, s', {i}) && Asking(c, s', i) && s'.nodes[i].round == round
    decreases round - s.nodes[i].round
  {
    hide Reached, Works, Idle;
    if s.nodes[i].round == round {
      s' := s;
      Standing(c, s);
    } else {
      IdleIsFree(c, s.nodes[i], i, s.nodes[i].round);
      var t := TimesOut(c, s, i);
      s' := GoesOn(c, t, i, round);
      Further(c, s, t, s', {i}, {i});
    }
  }

  lemma {:induction false} GroupGoesOn(c: Scene, s: State, g: set<Id>, round: nat) returns (s': State)
    requires Reached(c, s) && g <= c.cfg.honest && g <= s.nodes.Keys
    requires forall i :: i in g ==> Asking(c, s, i) && s.nodes[i].round <= round
    ensures Onward(c, s, s', g)
    ensures forall i :: i in g ==> Idle(c, s'.nodes[i], i, round) && AskOf(i, c.At(round)) in s'.net
    decreases g
  {
    hide Reached, Works, Idle, AskOf;
    if g == {} {
      s' := s;
      Standing(c, s);
    } else {
      var i :| i in g;
      var t := GoesOn(c, s, i, round);
      s' := GroupGoesOn(c, t, g - {i}, round);
      Further(c, s, t, s', {i}, g - {i});
      assert {i} + (g - {i}) == g;
    }
  }

  // ----- beginning the round -----

  lemma AskedOnce(c: Scene, s: State, i: Id, round: nat, q: set<Id>, d: set<Id>, v: Id) returns (s': State)
    requires Reached(c, s) && c.Sane() && c.IsQuorum(q) && i in c.cfg.honest && i in s.nodes
    requires Idle(c, s.nodes[i], i, round) && d <= Held(s.nodes[i]) && v in q && AskOf(v, c.At(round)) in s.net
    ensures Onward(c, s, s', {i})
    ensures s'.nodes[i] == Fresh(c, i, round, None)
            || (Idle(c, s'.nodes[i], i, round) && d + {v} <= Held(s'.nodes[i]) && !(q <= d + {v}))
  {
    hide Step, Reached, Pick, ReachThreshold, Quota, Idle, Held, AskOf, Fresh;
    var m := AskOf(v, c.At(round));
    AskStep(c, s.nodes[i], i, round, q, d, v);
    UnlockedBefore(c, s.nodes[i], i, round);
    s' := Take(c, s, i, Deliver(m), Step(s.nodes[i], Deliver(m), c.Says()));
  }

  lemma UnlockedBefore(c: Scene, n: Node, i: Id, round: nat)
    requires Idle(c, n, i, round)
    ensures forall n' :: !Drops(n, n')
  {
  }

  /** A waiting node gets ROUND CHANGEs of a quorum until it is ready in the round. */
  lemma {:induction false} Begins(c: Scene, s: State, i: Id, round: nat, q: set<Id>, d: set<Id>) returns (s': State)
    requires Reached(c, s) && c.Sane() && c.IsQuorum(q) && i in c.cfg.honest && i in s.nodes
    requires Idle(c, s.nodes[i], i, round) && d <= Held(s.nodes[i]) && !(q <= d)
    requires forall v :: v in q ==> AskOf(v, c.At(round)) in s.net
    ensures Onward(c, s, s', {i}) && s'.nodes[i] == Fresh(c, i, round, None)
    decreases q - d
  {
    hide Reached, Idle, Held, AskOf, Fresh;
    var v :| v in q && v !in d;
    s' := AskedOnce(c, s, i, round, q, d, v);
    if s'.nodes[i] != Fresh(c, i, round, None) {
      var t := s';
      assert v in q - d && v !in q - (d + {v});
      s' := Begins(c, t, i, round, q, d + {v});
      Further(c, s, t, s', {i}, {i});
    }
  }

  lemma {:induction false} GroupBegins(c: Scene, s: State, g: set<Id>, round: nat, q: set<Id>) returns (s': State)
    requires Reached(c, s) && c.Sane() && c.IsQuorum(q) && g <= c.cfg.honest && g <= s.nodes.Keys
    requires forall i :: i in g ==> Idle(c, s.nodes[i], i, round)
    requires forall v :: v in q ==> AskOf(v, c.At(round)) in s.net
    ensures Onward(c, s, s', g)
    ensures forall i :: i in g ==> s'.nodes[i] == Fresh(c, i, round, None)
    decreases g
  {
    hide Reached, Idle, AskOf, Fresh, Quota;
    if g == {} {
      s' := s;
      Standing(c, s);
    } else {
      var i :| i in g;
      assert !(q <= {});
      var t := Begins(c, s, i, round, q, {});
      s' := GroupBegins(c, t, g - {i}, round, q);
      Further(c, s, t, s', {i}, g - {i});
      assert {i} + (g - {i}) == g;
    }
  }

  // ----- the commit -----

  /** Everything the faulty members of a quorum have to say in favour of a round and a block. */
  ghost function Backing(c: Scene, q: set<Id>, round: nat, p: Proposal): set<Message> {
    (set v | v in q - c.cfg.honest :: PrepareOf(v, c.At(round), p))
    + (set v | v in q - c.cfg.honest :: CommitOf(v, c.At(round), p))
    + (set v | v in q - c.cfg.honest :: AskOf(v, c.At(round)))
  }

  lemma BackingHas(c: Scene, q: set<Id>, round: nat, p: Proposal)
    ensures forall m :: m in Backing(c, q, round, p) ==> m.from !in c.cfg.honest
    ensures forall v :: v in q - c.cfg.honest ==>
              && PrepareOf(v, c.At(round), p) in Backing(c, q, round, p)
              && CommitOf(v, c.At(round), p) in Backing(c, q, round, p)
              && AskOf(v, c.At(round)) in Backing(c, q, round, p)
  {
  }

  /** A group of honest nodes that only needs faulty validators beside it to be a quorum, and one of its nodes. */
  ghost predicate Camp(c: Scene, g: set<Id>, q: set<Id>, x: Id)
    requires c.Sane()
  {
    c.IsQuorum(q) && q * c.cfg.honest <= g <= c.cfg.honest && x in g
  }

  ghost function BlockOf(c: Scene, hash: BlockHash): Proposal { Proposal(c.height + 1, hash) }

  /** The camp gives up its rounds and is ready, with all its faulty friends can say, where y proposes. */
  lemma CampAssembles(c: Scene, s: State, g: set<Id>, q: set<Id>, x: Id, y: Id, hash: BlockHash)
    returns (s': State, round: nat)
    requires c.Sane() && |c.Vals()| < TWO_63 && Camp(c, g, q, x) && y in q
    requires Reached(c, s) && g <= s.nodes.Keys && forall i :: i in g ==> Works(c, s.nodes[i], i)
    ensures Reached(c, s') && Grows(s, s', g) && DropsWithin(s, s', g)
    ensures c.Proposer(round) == Some(y) && Backing(c, q, round, BlockOf(c, hash)) <= s'.net
    ensures forall i :: i in g ==> Ready(c, s'.nodes[i], i, round)
  {
    hide Reached, Works, Idle, AskOf, Pick, Backing, Quota;
    var s1 := GroupTimesOut(c, s, g);
    var bound := RoundsBelow(s1.nodes, g);
    assert y in c.Vals() by { assert y in Members(c.Vals()); }
    round := SomeRoundProposedBy(c, y, bound);
    BackingHas(c, q, round, BlockOf(c, hash));
    var s2 := GroupGoesOn(c, s1, g, round);
    var s3 := InjectAll(c, s2, Backing(c, q, round, BlockOf(c, hash)));
    forall v | v in q ensures AskOf(v, c.At(round)) in s3.net {
      if v in c.cfg.honest { assert v in q * c.cfg.honest; } else { assert v in q - c.cfg.honest; }
    }
    s' := GroupBegins(c, s3, g, round, q);
  }

  /**
   * A camp commits the block of its choice in some round, from any state: locks are dropped only by
   * its nodes that hold one, and no node outside it moves.
   */
  lemma CampCommits(c: Scene, s: State, g: set<Id>, q: set<Id>, x: Id, hash: BlockHash)
    returns (s': State, round: nat)
    requires c.Sane() && |c.Vals()| < TWO_63 && Camp(c, g, q, x)
    requires Reached(c, s) && g <= s.nodes.Keys && forall i :: i in g ==> Works(c, s.nodes[i], i)
    ensures Reached(c, s') && Grows(s, s', g) && DropsWithin(s, s', g)
    ensures Decision(x, c.At(round), hash, true) in s'.decisions
    ensures forall i :: i in g ==> Works(c, s'.nodes[i], i)
  {
    hide Reached, Ready, Works, Idle, AskOf, Pick, Backing;
    assert q != {};
    var y :| y in q;
    var t: State;
    t, round := CampAssembles(c, s, g, q, x, y, hash);
    BackingHas(c, q, round, BlockOf(c, hash));
    assert y in c.cfg.honest ==> y in q * c.cfg.honest;
    var u := Propose(c, t, round, BlockOf(c, hash));
    s' := GroupCommits(c, u, g, round, BlockOf(c, hash), q, x);
  }

  /** The nodes of the group stand at one sequence and follow one policy. */
  ghost predicate StandTogether(s: State, g: set<Id>, sequence: nat, policy: Policy) {
    forall i :: i in g ==> i in s.nodes && s.nodes[i].sequence == sequence && s.nodes[i].policy == policy
  }

  /**
   * Progress: from every reachable state in which honest nodes that make up a quorum stand at one
   * sequence, some run commits there, at the node and of the block one likes.
   */
  lemma SomeRunCommits(
    cfg: Config, s: State, g: set<Id>, sequence: nat, policy: Policy, last: Id, x: Id, hash: BlockHash)
    returns (s': State, round: nat)
    requires var vals := cfg.valsAt(sequence);
             && vals != [] && Distinct(vals) && |vals| < TWO_63 && g <= cfg.honest * Members(vals)
             && ReachThreshold(|vals|, |g|) && x in g && sequence >= 1
    requires Reachable(cfg, s) && StandTogether(s, g, sequence, policy)
    ensures Leads(cfg, s, s') && Decision(x, View(sequence, round), hash, true) in s'.decisions
  {
    hide Reachable, Leads, Works, Pick, ReachThreshold, Quota;
    var c := Scene(cfg, policy, sequence - 1, last, s);
    LeadsNowhere(cfg, s);
    assert c.Vals() == cfg.valsAt(sequence);
    DistinctSize(c.Vals());
    SubsetSize(g, Members(c.Vals()));
    var q := SubsetOfSize(g, Quota(|c.Vals()|));
    forall i | i in g ensures Works(c, s.nodes[i], i) { ReachableWorks(c, s, i); }
    s', round := CampCommits(c, s, g, q, x, hash);
  }

  lemma ReachableWorks(c: Scene, s: State, i: Id)
    requires Reachable(c.cfg, s) && i in c.cfg.honest && i in s.nodes
    requires s.nodes[i].sequence == c.height + 1 && s.nodes[i].policy == c.policy
    ensures Works(c, s.nodes[i], i)
  {
    hide Reachable;
    ReachableIsGrounded(c.cfg, s);
    assert Wired(c.cfg, s, s.nodes[i]);
  }
}
