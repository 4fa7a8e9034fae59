/** The order of validator ids and the one sorted arrangement of a list of them. */
module Ordering {
  import opened Protocol
  import opened Selector

  /** strings.Compare(a, b) < 0 */
  predicate Less(a: Id, b: Id) {
    if b == "" then false
    else if a == "" then true
    else if a[0] != b[0] then a[0] < b[0]
    else Less(a[1..], b[1..])
  }

  predicate AtMost(a: Id, b: Id) { !Less(b, a) }

  lemma {:induction false} LessIsTotal(a: Id, b: Id)
    ensures !(Less(a, b) && Less(b, a))
    ensures Less(a, b) || Less(b, a) || a == b
    ensures !Less(a, a)
    decreases |a| + |b|
  {
    if a != "" && b != "" {
      LessIsTotal(a[1..], b[1..]);
      assert a == [a[0]] + a[1..] && b == [b[0]] + b[1..];
    }
    if a != "" { LessIsIrreflexive(a); }
  }

  lemma {:induction false} LessIsIrreflexive(a: Id)
    ensures !Less(a, a)
  {
    if a != "" { LessIsIrreflexive(a[1..]); }
  }

  lemma {:induction false} LessIsTransitive(a: Id, b: Id, c: Id)
    requires Less(a, b) && Less(b, c)
    ensures Less(a, c)
    decreases |a|
  {
    if a != "" && a[0] == b[0] == c[0] { LessIsTransitive(a[1..], b[1..], c[1..]); }
  }

  lemma AtMostIsTransitive(a: Id, b: Id, c: Id)
    requires AtMost(a, b) && AtMost(b, c)
    ensures AtMost(a, c)
  {
    LessIsTotal(a, b);
    LessIsTotal(b, c);
    if a != b && b != c {
      LessIsTransitive(a, b, c);
      LessIsTotal(a, c);
    }
  }

  ghost predicate Sorted(ids: seq<Id>) {
    forall i, j :: 0 <= i < j < |ids| ==> AtMost(ids[i], ids[j])
  }

  function Insert(x: Id, ids: seq<Id>): (r: seq<Id>)
    ensures multiset(r) == multiset(ids) + multiset{x}
    ensures Sorted(ids) ==> Sorted(r)
  {
    if ids == [] then [x]
    else if !Less(ids[0], x) then
      assert Sorted(ids) ==> Sorted([x] + ids) by {
        forall j | 0 <= j < |ids| && Sorted(ids) ensures AtMost(x, ids[j]) {
          LessIsTotal(ids[0], ids[0]);
          if j > 0 { AtMostIsTransitive(x, ids[0], ids[j]); }
        }
      }
      [x] + ids
    else
      assert ids == [ids[0]] + ids[1..];
      var r := Insert(x, ids[1..]);
      assert Sorted(ids) ==> Sorted([ids[0]] + r) by { if Sorted(ids) { InsertAbove(ids, x, r); } }
      [ids[0]] + r
  }

  lemma InsertAbove(ids: seq<Id>, x: Id, r: seq<Id>)
    requires ids != [] && Sorted(ids) && Sorted(r) && Less(ids[0], x)
    requires multiset(r) == multiset(ids[1..]) + multiset{x}
    ensures Sorted([ids[0]] + r)
  {
    LessIsTotal(ids[0], x);
    forall j | 0 <= j < |r| ensures AtMost(ids[0], r[j]) {
      assert r[j] in multiset(r);
      if r[j] != x {
        assert r[j] in ids[1..];
        var k :| 0 <= k < |ids[1..]| && ids[1..][k] == r[j];
        assert ids[k + 1] == r[j];
      }
    }
  }

  /** sort.Sort on ids: the sorted permutation. */
  function SortIds(ids: seq<Id>): (r: seq<Id>)
    ensures Sorted(r) && multiset(r) == multiset(ids)
  {
    if ids == [] then []
    else
      assert ids == [ids[0]] + ids[1..];
      Insert(ids[0], SortIds(ids[1..]))
  }

  /** There is only one sorted arrangement of a multiset of ids. */
  lemma {:induction false} SortedIsUnique(a: seq<Id>, b: seq<Id>)
    requires Sorted(a) && Sorted(b) && multiset(a) == multiset(b)
    ensures a == b
  {
    assert |multiset(a)| == |multiset(b)|;
    if a != [] {
      assert a[0] in multiset(b);
      assert b != [];
      assert b[0] in multiset(a);
      FirstIsLeast(a, b[0]);
      FirstIsLeast(b, a[0]);
      LessIsTotal(a[0], b[0]);
      assert a == [a[0]] + a[1..] && b == [b[0]] + b[1..];
      assert multiset(a[1..]) == multiset(a) - multiset{a[0]};
      assert multiset(b[1..]) == multiset(b) - multiset{b[0]};
      SortedIsUnique(a[1..], b[1..]);
    }
  }

  lemma FirstIsLeast(a: seq<Id>, x: Id)
    requires Sorted(a) && a != [] && x in a
    ensures AtMost(a[0], x)
  {
    LessIsTotal(x, x);
  }

  lemma {:induction false} DistinctMultiset(a: seq<Id>, b: seq<Id>)
    requires Distinct(a) && Distinct(b) && Members(a) == Members(b)
    ensures multiset(a) == multiset(b)
  {
    forall x ensures multiset(a)[x] == multiset(b)[x] {
      CountDistinct(a, x);
      CountDistinct(b, x);
      assert x in a <==> x in Members(a);
      assert x in b <==> x in Members(b);
    }
  }

  lemma {:induction false} CountDistinct(a: seq<Id>, x: Id)
    requires Distinct(a)
    ensures multiset(a)[x] == if x in a then 1 else 0
  {
    if a != [] {
      assert a == [a[0]] + a[1..];
      assert Distinct(a[1..]);
      CountDistinct(a[1..], x);
    }
  }

  lemma {:induction false} DistinctByCount(a: seq<Id>)
    requires forall x :: multiset(a)[x] <= 1
    ensures Distinct(a)
  {
    forall i, j | 0 <= i < j < |a| ensures a[i] != a[j] {
      assert a == a[..j] + a[j..];
      assert a[i] in a[..j] by { assert a[..j][i] == a[i]; }
      assert a[j] in a[j..] by { assert a[j..][0] == a[j]; }
      assert multiset(a)[a[i]] == multiset(a[..j])[a[i]] + multiset(a[j..])[a[i]];
    }
  }

  /** Sorting keeps members and distinctness. */
  lemma SortKeeps(ids: seq<Id>)
    ensures Members(SortIds(ids)) == Members(ids)
    ensures Distinct(ids) ==> Distinct(SortIds(ids))
  {
    var r := SortIds(ids);
    forall x ensures x in r <==> x in ids {
      assert x in r <==> x in multiset(r);
      assert x in ids <==> x in multiset(ids);
    }
    if Distinct(ids) {
      forall x ensures multiset(r)[x] <= 1 { CountDistinct(ids, x); }
      DistinctByCount(r);
    }
  }

  ghost predicate SortedUpTo(a: seq<Id>, i: nat)
    requires i <= |a|
  {
    forall p, q :: 0 <= p < i && p < q < |a| ==> AtMost(a[p], a[q])
  }

  /** The nested exchange loops of voteSnapshot.validators(), in place. */
  method ExchangeSort(a: array<Id>)
    modifies a
    ensures a[..] == SortIds(old(a[..]))
  {
    ghost var before := a[..];
    var i := 0;
    while i < a.Length
      invariant i <= a.Length && SortedUpTo(a[..], i) && multiset(a[..]) == multiset(before)
    {
      var j := i + 1;
      while j < a.Length
        invariant i < j <= a.Length && SortedUpTo(a[..], i) && multiset(a[..]) == multiset(before)
        invariant forall q :: i < q < j ==> AtMost(a[i], a[q])
      {
        ghost var s := a[..];
        if Less(a[j], a[i]) {
          ExchangeKeeps(s, i, j);
          a[i], a[j] := a[j], a[i];
          assert a[..] == s[i := s[j]][j := s[i]];
        }
        j := j + 1;
      }
      i := i + 1;
    }
    SortedIsUnique(a[..], SortIds(before));
  }

  lemma ExchangeKeeps(s: seq<Id>, i: nat, j: nat)
    requires i < j < |s| && SortedUpTo(s, i) && Less(s[j], s[i])
    requires forall q :: i < q < j ==> AtMost(s[i], s[q])
    ensures var t := s[i := s[j]][j := s[i]];
            && multiset(t) == multiset(s) && SortedUpTo(t, i)
            && forall q :: i < q <= j ==> AtMost(t[i], t[q])
  {
    var t := s[i := s[j]][j := s[i]];
    LessIsTotal(s[j], s[i]);
    forall q | i < q < j ensures AtMost(t[i], t[q]) {
      AtMostIsTransitive(s[j], s[i], s[q]);
    }
  }
}
