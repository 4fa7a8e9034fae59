/** The validator set: a sorted list of ids, edited one id at a time, with a recorded proposer. */
module ValidatorSets {
  import opened Protocol
  import opened Quorum
  import opened Selector
  import opened Ordering

  // ----- the list as a value -----

  function Added(ids: seq<Id>, id: Id): seq<Id> {
    if id in ids then ids else SortIds(ids + [id])
  }

  function Removed(ids: seq<Id>, id: Id): seq<Id> {
    var i := IndexOf(ids, id);
    if i < 0 then ids else Splice(ids, i)
  }

  datatype Edit = Add(id: Id) | Remove(id: Id)

  function Edited(ids: seq<Id>, edits: seq<Edit>): seq<Id> {
    if edits == [] then ids
    else
      var before := Edited(ids, edits[..|edits| - 1]);
      match edits[|edits| - 1]
      case Add(id) => Added(before, id)
      case Remove(id) => Removed(before, id)
  }

  /** What the edits mean for the members alone. */
  ghost function EditedMembers(members: set<Id>, edits: seq<Edit>): set<Id> {
    if edits == [] then members
    else
      var before := EditedMembers(members, edits[..|edits| - 1]);
      match edits[|edits| - 1]
      case Add(id) => before + {id}
      case Remove(id) => before - {id}
  }

  ghost predicate Canonical(ids: seq<Id>) {
    Sorted(ids) && Distinct(ids)
  }

  lemma AddedIsCanonical(ids: seq<Id>, id: Id)
    requires Canonical(ids)
    ensures Canonical(Added(ids, id))
    ensures Members(Added(ids, id)) == Members(ids) + {id}
  {
    if id !in ids {
      assert Distinct(ids + [id]);
      SortKeeps(ids + [id]);
      assert Members(ids + [id]) == Members(ids) + {id};
    }
  }

  /** The list without its i-th element. */
  function Splice(ids: seq<Id>, i: nat): (r: seq<Id>)
    requires i < |ids|
    ensures |r| == |ids| - 1
    ensures forall k :: 0 <= k < |r| ==> r[k] == ids[if k < i then k else k + 1]
    ensures multiset(r) == multiset(ids) - multiset{ids[i]}
  {
    assert ids == ids[..i] + ([ids[i]] + ids[i + 1..]);
    ids[..i] + ids[i + 1..]
  }

  /** Taking an id out removes one occurrence of it, if there is one. */
  lemma RemovedTakesOne(ids: seq<Id>, id: Id)
    ensures multiset(Removed(ids, id)) == multiset(ids) - multiset{id}
  {
    if IndexOf(ids, id) < 0 { assert id !in multiset(ids); }
  }

  lemma SpliceKeepsOrder(ids: seq<Id>, i: nat)
    requires i < |ids| && Canonical(ids)
    ensures Canonical(Splice(ids, i))
  {
    hide AtMost;
    var r := Splice(ids, i);
    forall a, b | 0 <= a < b < |r| ensures AtMost(r[a], r[b]) && r[a] != r[b] {
      assert AtMost(ids[if a < i then a else a + 1], ids[if b < i then b else b + 1]);
    }
  }

  lemma RemovedIsCanonical(ids: seq<Id>, id: Id)
    requires Canonical(ids)
    ensures Canonical(Removed(ids, id))
    ensures Members(Removed(ids, id)) == Members(ids) - {id}
  {
    var i := IndexOf(ids, id);
    if i >= 0 {
      SpliceKeepsOrder(ids, i);
      SpliceMembers(ids, i);
    }
  }

  lemma SpliceMembers(ids: seq<Id>, i: nat)
    requires i < |ids| && Distinct(ids)
    ensures Members(Splice(ids, i)) == Members(ids) - {ids[i]}
  {
    var r := Splice(ids, i);
    forall x | x in ids && x != ids[i] ensures x in r {
      var k :| 0 <= k < |ids| && ids[k] == x;
      assert r[if k < i then k else k - 1] == x;
    }
  }

  lemma SortOfSorted(ids: seq<Id>)
    requires Sorted(ids)
    ensures SortIds(ids) == ids
  {
    SortedIsUnique(SortIds(ids), ids);
  }

  /** Any history of adds and removes keeps the list sorted and distinct and tracks the members. */
  lemma {:induction false} EditsKeepCanonical(ids: seq<Id>, edits: seq<Edit>)
    requires Canonical(ids)
    ensures Canonical(Edited(ids, edits))
    ensures Members(Edited(ids, edits)) == EditedMembers(Members(ids), edits)
  {
    if edits != [] {
      var k := |edits| - 1;
      EditsKeepCanonical(ids, edits[..k]);
      AddedIsCanonical(Edited(ids, edits[..k]), edits[k].id);
      RemovedIsCanonical(Edited(ids, edits[..k]), edits[k].id);
    }
  }

  /** A canonical list is determined by its members. */
  lemma CanonicalByMembers(a: seq<Id>, b: seq<Id>)
    requires Canonical(a) && Canonical(b)
    ensures a == b <==> Members(a) == Members(b)
  {
    if Members(a) == Members(b) {
      DistinctMultiset(a, b);
      SortedIsUnique(a, b);
    }
  }

  /**
   * Two nodes whose sets started from any distinct lists and went through any edits hold the
   * same list, and pick the same proposer in every round, as soon as they agree on the members.
   */
  lemma MembersDecideProposer(
    ids: seq<Id>, edits: seq<Edit>, ids': seq<Id>, edits': seq<Edit>,
    policy: Policy, last: Id, round: nat)
    requires Distinct(ids) && Distinct(ids')
    requires EditedMembers(Members(ids), edits) == EditedMembers(Members(ids'), edits')
    ensures Edited(SortIds(ids), edits) == Edited(SortIds(ids'), edits')
    ensures Pick(policy, Edited(SortIds(ids), edits), last, round)
         == Pick(policy, Edited(SortIds(ids'), edits'), last, round)
  {
    SortKeeps(ids);
    SortKeeps(ids');
    EditsKeepCanonical(SortIds(ids), edits);
    EditsKeepCanonical(SortIds(ids'), edits');
    CanonicalByMembers(Edited(SortIds(ids), edits), Edited(SortIds(ids'), edits'));
  }

  // ----- the object -----

  class ValidatorSet {
    const policy: Policy
    var proposer: Option<Id>
    var validators: seq<Id>

    /** NewSet: the ids in order, with the first of them as proposer. */
    constructor (ids: seq<Id>, policy: Policy)
      ensures validators == SortIds(ids) && this.policy == policy
      ensures proposer == if ids == [] then None else Some(validators[0])
    {
      this.policy := policy;
      validators := SortIds(ids);
      proposer := None;
      new;
      assert |multiset(validators)| == |multiset(ids)|;
      if |validators| > 0 { proposer := GetByIndex(0); }
    }

    function GetByIndex(i: nat): (v: Option<Id>)
      reads this
      ensures v.Some? <==> i < |validators|
      ensures v.Some? ==> v.value == validators[i]
    {
      if i < |validators| then Some(validators[i]) else None
    }

    /** The first position of an id, or -1. */
    method GetById(id: Id) returns (index: int)
      ensures index == IndexOf(validators, id)
    {
      index := 0;
      while index < |validators|
        invariant 0 <= index <= |validators| && id !in validators[..index]
      {
        if validators[index] == id {
          FirstPosition(validators, id, index);
          return;
        }
        index := index + 1;
      }
      assert validators[..index] == validators;
      index := -1;
    }

    /** Only a member can be the proposer. */
    method IsProposer(id: Id) returns (yes: bool)
      ensures yes <==> id in validators && proposer == Some(id)
    {
      var index := GetById(id);
      yes := index >= 0 && proposer == Some(validators[index]);
    }

    method CalcProposer(last: Id, round: nat)
      modifies this`proposer
      ensures proposer == Pick(policy, validators, last, round)
    {
      proposer := Pick(policy, validators, last, round);
    }

    method AddValidator(id: Id) returns (added: bool)
      modifies this`validators
      ensures added == (id !in old(validators))
      ensures validators == Added(old(validators), id)
    {
      var i := 0;
      while i < |validators|
        invariant 0 <= i <= |validators| && id !in validators[..i]
        invariant validators == old(validators)
      {
        if validators[i] == id { return false; }
        i := i + 1;
      }
      assert validators[..i] == validators;
      validators := SortIds(validators + [id]);
      return true;
    }

    method RemoveValidator(id: Id) returns (removed: bool)
      modifies this`validators
      ensures removed == (id in old(validators))
      ensures validators == Removed(old(validators), id)
    {
      var i := 0;
      while i < |validators|
        invariant 0 <= i <= |validators| && id !in validators[..i]
        invariant validators == old(validators)
      {
        if validators[i] == id {
          FirstPosition(validators, id, i);
          validators := validators[..i] + validators[i + 1..];
          return true;
        }
        i := i + 1;
      }
      assert validators[..i] == validators;
      return false;
    }

    /** A copy holds the same list; its proposer is the first member, whatever the original's was. */
    method Copy() returns (copy: ValidatorSet)
      ensures fresh(copy) && copy.policy == policy && copy.validators == SortIds(validators)
      ensures Sorted(validators) ==> copy.validators == validators
      ensures copy.proposer == if validators == [] then None else Some(copy.validators[0])
    {
      hide SortIds, Sorted;
      var ids: seq<Id> := [];
      for i := 0 to |validators|
        invariant ids == validators[..i]
      {
        ids := ids + [validators[i]];
      }
      assert ids == validators;
      if Sorted(validators) { SortOfSorted(validators); }
      copy := new ValidatorSet(ids, policy);
    }

    method FaultTolerance() returns (f: int)
      ensures f == FaultTolerantNum(|validators|)
    {
      f := FaultTolerantNum(|validators|);
    }

    /**
     * Whether an outdated PRE-PREPARE came from the proposer of its view, by the validators and the
     * proposer of the blocks before it. The set itself keeps its proposer.
     */
    method WasProposer(previous: Id, round: nat, sender: Id) returns (yes: bool)
      ensures yes <==> Pick(policy, SortIds(validators), previous, round) == Some(sender)
    {
      var copy := Copy();
      copy.CalcProposer(previous, round);
      yes := copy.IsProposer(sender);
    }

    /** voteSnapshot.validators(): the ids copied out and put in order by exchange. */
    method OrderedIds() returns (ids: seq<Id>)
      ensures ids == SortIds(validators)
    {
      var a := new Id[|validators|](i requires 0 <= i < |validators| reads this => validators[i]);
      assert a[..] == validators;
      ExchangeSort(a);
      ids := a[..];
    }

    /** Writing the set out as ordered ids and reading it back through NewSet gives the same list. */
    method Rebuild() returns (again: ValidatorSet)
      ensures fresh(again) && again.policy == policy && again.validators == SortIds(validators)
      ensures Sorted(validators) ==> again.validators == validators
    {
      var ids := OrderedIds();
      SortOfSorted(ids);
      again := new ValidatorSet(ids, policy);
      if Sorted(validators) { SortOfSorted(validators); }
    }
  }

  lemma FirstPosition(ids: seq<Id>, id: Id, i: nat)
    requires i < |ids| && ids[i] == id && id !in ids[..i]
    ensures IndexOf(ids, id) == i
  {
    forall j | 0 <= j < i ensures ids[j] != id { assert ids[..i][j] == ids[j]; }
    var k := IndexOf(ids, id);
    forall j | 0 <= j < k ensures ids[j] != id { assert ids[..k][j] == ids[j]; }
  }
}
