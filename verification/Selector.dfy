/** The proposer selection policies over a list of validator ids. */
module Selector {
  import opened Protocol
  import opened Quorum

  datatype Policy = RoundRobin | Sticky

  /** GetById: the first position of an id in the list, or -1. */
  function IndexOf(ids: seq<Id>, id: Id): (i: int)
    ensures -1 <= i < |ids|
    ensures i >= 0 ==> ids[i] == id && id !in ids[..i]
    ensures i == -1 <==> id !in ids
  {
    if ids == [] then -1
    else if ids[0] == id then 0
    else
      var i := IndexOf(ids[1..], id);
      if i < 0 then -1
      else
        assert ids[..i + 1] == [ids[0]] + ids[1..][..i];
        i + 1
  }

  /** The position the policy starts from when the last proposer is known. */
  function CalcSeed(ids: seq<Id>, proposer: Id, round: nat): nat {
    var i := IndexOf(ids, proposer);
    Low64((if i < 0 then 0 else i) + round)
  }

  function Seed(policy: Policy, ids: seq<Id>, proposer: Id, round: nat): nat {
    if proposer == "" then round
    else match policy
      case RoundRobin => Low64(CalcSeed(ids, proposer, round) + 1)
      case Sticky => CalcSeed(ids, proposer, round)
  }

  /** The selector of the policy: the validator proposing in `round` (a uint64). */
  function Pick(policy: Policy, ids: seq<Id>, proposer: Id, round: nat): (v: Option<Id>)
    ensures v.Some? <==> ids != []
    ensures v.Some? ==> v.value in ids
  {
    if ids == [] then None
    else Some(ids[Seed(policy, ids, proposer, round) % |ids|])
  }

  ghost predicate Distinct<T>(ids: seq<T>) {
    forall i, j :: 0 <= i < j < |ids| ==> ids[i] != ids[j]
  }

  ghost function Members<T>(ids: seq<T>): set<T> {
    set v | v in ids
  }

  lemma {:induction false} DistinctSize<T>(ids: seq<T>)
    requires Distinct(ids)
    ensures |Members(ids)| == |ids|
  {
    if ids != [] {
      var rest := ids[1..];
      assert Distinct(rest);
      DistinctSize(rest);
      assert ids[0] !in rest;
      assert Members(ids) == {ids[0]} + Members(rest) by {
        assert ids == [ids[0]] + rest;
      }
    }
  }

  lemma {:induction false} MembersAtMost<T>(ids: seq<T>)
    ensures |Members(ids)| <= |ids|
  {
    if ids != [] {
      MembersAtMost(ids[1..]);
      assert Members(ids) == {ids[0]} + Members(ids[1..]) by { assert ids == [ids[0]] + ids[1..]; }
    }
  }

  /** What reaches the threshold still does so with more members beside it. */
  lemma UnionReachesToo(vals: seq<Id>, a: set<Id>, b: set<Id>)
    requires a <= Members(vals) && b <= Members(vals)
    requires ReachThreshold(|vals|, |b|)
    ensures ReachThreshold(|vals|, |a + b|)
  {
    MembersAtMost(vals);
    SubsetSize(b, a + b);
    SubsetSize(a + b, Members(vals));
  }

  // ----- rotation -----

  /** The seed before its reduction: what the policy adds to the round. */
  function Base(policy: Policy, ids: seq<Id>, proposer: Id): (b: nat)
    ensures b <= |ids| + 1
  {
    if proposer == "" then 0
    else
      var i := IndexOf(ids, proposer);
      (if i < 0 then 0 else i) + (if policy == RoundRobin then 1 else 0)
  }

  lemma SeedIsShift(policy: Policy, ids: seq<Id>, proposer: Id, round: nat)
    requires round < TWO_64
    ensures Seed(policy, ids, proposer, round) == Low64(Base(policy, ids, proposer) + round)
  {
    if proposer != "" {
      var i := IndexOf(ids, proposer);
      var x := (if i < 0 then 0 else i) + round;
      var q := x / TWO_64;
      assert x + 1 == Low64(x) + 1 + TWO_64 * q;
      ModShift(Low64(x) + 1, TWO_64, q);
    }
  }

  /** The position picked in the k-th of the consecutive rounds that start at `round`. */
  ghost function Turn(policy: Policy, ids: seq<Id>, proposer: Id, round: nat, k: nat): nat
    requires ids != []
  {
    Seed(policy, ids, proposer, Low64(round + k)) % |ids|
  }

  /** Whether n consecutive rounds from `round` give each of the n positions exactly one turn. */
  ghost predicate Fair(policy: Policy, ids: seq<Id>, proposer: Id, round: nat)
    requires ids != []
  {
    forall k, l :: 0 <= k < l < |ids| ==>
      Turn(policy, ids, proposer, round, k) != Turn(policy, ids, proposer, round, l)
  }

  lemma MulAtLeast(m: int, d: int)
    requires m > 0
    ensures d >= 1 ==> m * d >= m
    ensures d <= -1 ==> m * d <= -m
  {
    if d >= 1 { assert m * d == m + m * (d - 1); }
    if d <= -1 { assert m * d == -m + m * (d + 1); }
  }

  lemma DivisionIsUnique(x: int, m: int, q: int, r: int)
    requires 0 <= r < m && x == m * q + r
    ensures x / m == q && x % m == r
  {
    var q', r' := x / m, x % m;
    assert x == m * q' + r';
    assert m * (q - q') == m * q - m * q';
    MulAtLeast(m, q - q');
  }

  lemma ModShift(x: int, m: int, q: int)
    requires m > 0
    ensures (x + m * q) % m == x % m
  {
    var d, r := x / m, x % m;
    assert m * (d + q) == m * d + m * q;
    DivisionIsUnique(x + m * q, m, d + q, r);
  }

  lemma NearResidues(x: nat, y: nat, m: int)
    requires m > 0 && x < y < x + m
    ensures x % m != y % m
  {
    var p, q := x / m, y / m;
    assert x == m * p + x % m && y == m * q + y % m;
    assert m * (q - p) == m * q - m * p;
    MulAtLeast(m, q - p);
  }

  /** What the k-th turn comes to: the low 64 bits of start + k, reduced to a position. */
  lemma TurnIs(policy: Policy, ids: seq<Id>, proposer: Id, round: nat, k: nat)
    requires ids != []
    ensures Turn(policy, ids, proposer, round, k) == Low64(Base(policy, ids, proposer) + round + k) % |ids|
  {
    var r := Low64(round + k);
    SeedIsShift(policy, ids, proposer, r);
    var b := Base(policy, ids, proposer);
    var q := (round + k) / TWO_64;
    assert b + round + k == b + r + TWO_64 * q;
    ModShift(b + r, TWO_64, q);
  }

  /**
   * Rotation: any n consecutive rounds give every validator exactly one turn when the
   * seed does not pass 2^64 inside the window, or n divides 2^64; in no other case.
   */
  lemma RotationIsFairExactly(policy: Policy, ids: seq<Id>, proposer: Id, round: nat)
    requires ids != [] && |ids| < TWO_64
    ensures Fair(policy, ids, proposer, round) <==>
            Low64(Base(policy, ids, proposer) + round) + |ids| <= TWO_64 || TWO_64 % |ids| == 0
  {
    var s := Low64(Base(policy, ids, proposer) + round);
    hide Turn, Spot, Low64;
    forall k | 0 <= k < |ids| ensures Turn(policy, ids, proposer, round, k) == Spot(s, k, |ids|) {
      TurnIsSpot(policy, ids, proposer, round, k);
    }
    if s + |ids| <= TWO_64 || TWO_64 % |ids| == 0 {
      forall k, l | 0 <= k < l < |ids|
        ensures Turn(policy, ids, proposer, round, k) != Turn(policy, ids, proposer, round, l)
      {
        SpotsDiffer(s, |ids|, k, l);
      }
    } else {
      var k, l := SpotsCollide(s, |ids|);
      assert Turn(policy, ids, proposer, round, k) == Turn(policy, ids, proposer, round, l);
    }
  }

  /** Three validators in the three rounds from 2^64 - 1 on: one of them has two turns. */
  lemma RotationWraps(a: Id, b: Id, c: Id, policy: Policy)
    ensures !Fair(policy, [a, b, c], "", TWO_64 - 1)
    ensures Turn(policy, [a, b, c], "", TWO_64 - 1, 0) == Turn(policy, [a, b, c], "", TWO_64 - 1, 1) == 0
  {
    RotationIsFairExactly(policy, [a, b, c], "", TWO_64 - 1);
  }

  /** The position k steps after seed s, with the wrap at 2^64. */
  ghost function Spot(s: nat, k: nat, n: nat): nat
    requires s < TWO_64 && 0 < n
  {
    if s + k < TWO_64 then (s + k) % n
    else if k < TWO_64 then (s + k - TWO_64) % n
    else 0
  }

  lemma TurnIsSpot(policy: Policy, ids: seq<Id>, proposer: Id, round: nat, k: nat)
    requires k < |ids| < TWO_64
    ensures Turn(policy, ids, proposer, round, k)
            == Spot(Low64(Base(policy, ids, proposer) + round), k, |ids|)
  {
    hide Turn, Base;
    TurnIs(policy, ids, proposer, round, k);
    LowOfSum(Base(policy, ids, proposer) + round, k);
  }

  lemma SpotsDiffer(s: nat, n: nat, k: nat, l: nat)
    requires s < TWO_64 && k < l < n < TWO_64
    requires s + n <= TWO_64 || TWO_64 % n == 0
    ensures Spot(s, k, n) != Spot(s, l, n)
  {
    NearResidues(s + k, s + l, n);
    if TWO_64 % n == 0 {
      var q := TWO_64 / n;
      assert TWO_64 == n * q;
      ModShift(s + k - TWO_64, n, q);
      ModShift(s + l - TWO_64, n, q);
    }
  }

  /** Two rounds on either side of the wrap fall on one position when n does not divide 2^64. */
  lemma SpotsCollide(s: nat, n: nat) returns (k: nat, l: nat)
    requires s < TWO_64 && 0 < n < TWO_64
    requires s + n > TWO_64 && TWO_64 % n != 0
    ensures k < l < n && Spot(s, k, n) == Spot(s, l, n)
  {
    var t, q := TWO_64 % n, TWO_64 / n;
    var p := TWO_64 - s;              // rounds of the window before the wrap
    if p >= t {
      // position 0 is taken t rounds before the wrap and again right after it
      k, l := p - t, p;
      DivisionIsUnique(s + k, n, q, 0);
      DivisionIsUnique(0, n, 0, 0);
    } else {
      // position t - p is taken in the first round and again t - p rounds after the wrap
      k, l := 0, p + (t - p);
      DivisionIsUnique(s, n, q, t - p);
      DivisionIsUnique(t - p, n, 0, t - p);
    }
  }

  lemma LowOfSum(start: nat, k: nat)
    requires k < TWO_64
    ensures Low64(start + k) == (if Low64(start) + k < TWO_64 then Low64(start) + k else Low64(start) + k - TWO_64)
  {
    var s, q := start % TWO_64, start / TWO_64;
    var t := if s + k < TWO_64 then s + k else s + k - TWO_64;
    DivisionIsUnique(start + k, TWO_64, if s + k < TWO_64 then q else q + 1, t);
  }

  /** Distinct turns over n positions leave no position out: in a fair window every validator proposes. */
  lemma FairReachesAll(policy: Policy, ids: seq<Id>, proposer: Id, round: nat, i: nat)
    requires ids != [] && i < |ids| && Fair(policy, ids, proposer, round)
    ensures exists k :: 0 <= k < |ids| && Turn(policy, ids, proposer, round, k) == i
  {
    var turns := seq(|ids|, k requires 0 <= k => Turn(policy, ids, proposer, round, k));
    Pigeonhole(turns, |ids|, i);
    var k :| 0 <= k < |turns| && turns[k] == i;
    assert Turn(policy, ids, proposer, round, k) == i;
  }

  lemma Pigeonhole(t: seq<nat>, n: nat, i: nat)
    requires |t| == n && Distinct(t) && (forall k :: 0 <= k < n ==> t[k] < n) && i < n
    ensures i in t
  {
    DistinctSize(t);
    SubsetSize(Members(t) + {i}, Below(n));
  }

  ghost function Below(n: nat): (s: set<nat>)
    ensures |s| == n
    ensures forall j: nat :: j in s <==> j < n
  {
    if n == 0 then {} else Below(n - 1) + {n - 1}
  }
}
