/** Fault tolerance and the vote threshold, with quorum intersection over finite sets. */
module Quorum {

  /** ceil(n / 3) - 1; it is -1 for the empty set. */
  function FaultTolerantNum(n: nat): (f: int)
    ensures n >= 1 ==> 3 * f + 1 <= n <= 3 * f + 3
  {
    (n + 2) / 3 - 1
  }

  /** reachThreshold: whether `num` of `n` validators are enough. */
  predicate ReachThreshold(n: nat, num: int) {
    var f := FaultTolerantNum(n);
    if f == 0 then num == n else num > 2 * f
  }

  /** The least number that reaches the threshold. */
  function Quota(n: nat): (q: nat)
    requires n >= 1
    ensures forall num: nat | num <= n :: ReachThreshold(n, num) <==> num >= q
    ensures 1 <= q <= n <= 2 * q
  {
    var f := FaultTolerantNum(n);
    if f == 0 then n else 2 * f + 1
  }

  /** How many validators two quorums of n share at the least. */
  function Spare(n: nat): nat
    requires n >= 1
  {
    2 * Quota(n) - n
  }

  /** The sizes at which two quorums always share an honest validator. */
  predicate SafeSize(n: nat) {
    n <= 3 || n % 3 == 1
  }

  /** On 0..n the threshold is upward closed. */
  lemma ThresholdUpwardClosed(n: nat, a: nat, b: nat)
    requires 1 <= n && a <= b <= n
    requires ReachThreshold(n, a)
    ensures ReachThreshold(n, b)
  {
  }

  /** The validators left when f are silent are always enough, and a quorum holds more than f of them. */
  lemma ThresholdIsReachable(n: nat, num: nat)
    requires 1 <= n && num <= n
    ensures ReachThreshold(n, n - FaultTolerantNum(n))
    ensures ReachThreshold(n, num) ==> num > FaultTolerantNum(n)
  {
  }

  lemma SubsetSize<T>(a: set<T>, b: set<T>)
    requires a <= b
    ensures |a| <= |b|
  {
    assert |b| == |a| + |b - a| by {
      assert b == a + (b - a);
    }
  }

  lemma {:induction false} SubsetOfSize<T>(s: set<T>, k: nat) returns (t: set<T>)
    requires k <= |s|
    ensures t <= s && |t| == k
  {
    if k == 0 {
      t := {};
    } else {
      var x :| x in s;
      var u := SubsetOfSize(s - {x}, k - 1);
      t := u + {x};
    }
  }

  /** Two quorums of a safely sized set share more than f members. */
  lemma QuorumsOverlap<T>(vals: set<T>, a: set<T>, b: set<T>)
    requires vals != {} && SafeSize(|vals|)
    requires a <= vals && b <= vals
    requires ReachThreshold(|vals|, |a|) && ReachThreshold(|vals|, |b|)
    ensures |a * b| > FaultTolerantNum(|vals|)
  {
    assert |a + b| + |a * b| == |a| + |b|;
    SubsetSize(a + b, vals);
  }

  /** The overlap is what agreement needs, and it holds for no other size. */
  lemma OverlapExactlyAtSafeSizes<T(!new)>(vals: set<T>)
    requires vals != {}
    ensures SafeSize(|vals|) <==>
            forall a, b | a <= vals && b <= vals
                          && ReachThreshold(|vals|, |a|) && ReachThreshold(|vals|, |b|) ::
              |a * b| > FaultTolerantNum(|vals|)
  {
    var n := |vals|;
    var f := FaultTolerantNum(n);
    if SafeSize(n) {
      forall a, b | a <= vals && b <= vals && ReachThreshold(n, |a|) && ReachThreshold(n, |b|)
        ensures |a * b| > f
      {
        QuorumsOverlap(vals, a, b);
      }
    } else {
      var q := 2 * f + 1;
      var a := SubsetOfSize(vals, q);
      assert |vals - a| == n - q by { assert vals == a + (vals - a); }
      var c := SubsetOfSize(a, 2 * q - n);
      var b := c + (vals - a);
      assert |b| == q;
      assert a * b == c;
      assert ReachThreshold(n, |a|) && ReachThreshold(n, |b|) && |a * b| <= f;
    }
  }

  /** With at most f faulty members, a set of more than f members has an honest one. */
  lemma HonestMember<T>(vals: set<T>, honest: set<T>, a: set<T>) returns (x: T)
    requires a <= vals
    requires |vals - honest| < |a|
    ensures x in a && x in honest
  {
    if a * honest == {} {
      forall y | y in a ensures y in vals - honest {
        assert y in honest ==> y in a * honest;
      }
      SubsetSize(a, vals - honest);
    }
    x :| x in a * honest;
  }

  /** The safe sizes are those at which the least overlap exceeds f. */
  lemma SafeSizeMeansSpare(n: nat)
    requires n >= 1
    ensures SafeSize(n) <==> FaultTolerantNum(n) < Spare(n)
  {
  }

  lemma SharedMember<T>(vals: set<T>, good: set<T>, a: set<T>, b: set<T>) returns (x: T)
    requires vals != {} && |vals - good| < Spare(|vals|)
    requires a <= vals && b <= vals
    requires ReachThreshold(|vals|, |a|) && ReachThreshold(|vals|, |b|)
    ensures x in a && x in b && x in good
  {
    SubsetSize(a, vals);
    SubsetSize(b, vals);
    assert |a + b| + |a * b| == |a| + |b|;
    SubsetSize(a + b, vals);
    x := HonestMember(vals, good, a * b);
  }

  /** Two quorums, each of the quota, that share no good member. */
  lemma SplitQuorums<T>(vals: set<T>, good: set<T>) returns (a: set<T>, b: set<T>)
    requires vals != {} && |vals - good| >= Spare(|vals|)
    ensures a <= vals && b <= vals && |a| == |b| == Quota(|vals|)
    ensures a * b * good == {}
  {
    var bad, q := vals - good, Quota(|vals|);
    SubsetSize(bad, vals);
    if |bad| >= q {
      a := SubsetOfSize(bad, q);
      b := a;
    } else {
      assert vals == bad + vals * good;
      assert |vals * good| == |vals| - |bad|;
      var c := SubsetOfSize(vals * good, q - |bad|);
      assert vals * good == c + (vals * good - c);
      var d := SubsetOfSize(vals * good - c, q - |bad|);
      a, b := bad + c, bad + d;
    }
  }

  /**
   * Any two quorums share a good member if and only if fewer members are not good than two
   * quorums share at the least, whatever the size of the set.
   */
  lemma QuorumsShareGoodExactly<T(!new)>(vals: set<T>, good: set<T>)
    requires vals != {}
    ensures |vals - good| < Spare(|vals|) <==>
            forall a, b | a <= vals && b <= vals
                          && ReachThreshold(|vals|, |a|) && ReachThreshold(|vals|, |b|) :: a * b * good != {}
  {
    if |vals - good| < Spare(|vals|) {
      forall a, b | a <= vals && b <= vals && ReachThreshold(|vals|, |a|) && ReachThreshold(|vals|, |b|)
        ensures a * b * good != {}
      {
        var x := SharedMember(vals, good, a, b);
        assert x in a * b * good;
      }
    } else {
      var a, b := SplitQuorums(vals, good);
      SubsetSize(a, vals);
      assert ReachThreshold(|vals|, |a|) && ReachThreshold(|vals|, |b|);
    }
  }
}
