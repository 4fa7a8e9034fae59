/** The state of the current round and the collected round changes, updated in place. */
module RoundStates {
  import opened Protocol
  import opened Selector
  import opened NodeSpec
  import opened MessageSets

  class RoundState {
    var round: nat
    var sequence: nat
    var prePrepare: Option<PrePrepare>
    const prepares: MessageSet
    const commits: MessageSet
    var lockedHash: Hash
    var pendingRequest: Option<Proposal>

    ghost predicate Valid()
      reads this, prepares, commits
    {
      prepares != commits && prepares.Valid() && commits.Valid() && prepares.valSet == commits.valSet
    }

    constructor (
      view: View, valSet: seq<Id>, lockedHash: Hash, prePrepare: Option<PrePrepare>, pending: Option<Proposal>)
      ensures Valid() && fresh(prepares) && fresh(commits) && prepares.valSet == valSet
      ensures round == view.round && sequence == view.sequence && this.prePrepare == prePrepare
      ensures this.lockedHash == lockedHash && pendingRequest == pending
      ensures prepares.messages == map[] && commits.messages == map[]
    {
      round, sequence := view.round, view.sequence;
      this.prePrepare, this.lockedHash, pendingRequest := prePrepare, lockedHash, pending;
      prepares := new MessageSet(valSet);
      commits := new MessageSet(valSet);
    }

    function View(): View reads this { Protocol.View.View(sequence, round) }

    /** The number of distinct senders of a PREPARE or a COMMIT. */
    method GetPrepareOrCommitSize() returns (result: int)
      requires Valid()
      ensures result == |prepares.messages.Keys + commits.messages.Keys|
    {
      ghost var p, c := prepares.messages.Keys, commits.messages.Keys;
      result := prepares.Size() + commits.Size();
      var values := prepares.Values();
      ghost var names := Senders(values);
      for i := 0 to |values|
        invariant result == |p| + |c| - |Members(names[..i]) * c|
      {
        CountNext(names, i, c);
        if commits.Get(values[i].from).Some? {
          result := result - 1;
        }
      }
      assert names[..|values|] == names;
      SendersCover(values, prepares.messages);
      assert |p + c| == |p| + |c| - |p * c|;
    }

    method LockHash()
      modifies this
      ensures lockedHash == if prePrepare.Some? then prePrepare.value.proposal.hash else old(lockedHash)
      ensures unchanged(`round) && unchanged(`sequence) && unchanged(`prePrepare) && unchanged(`pendingRequest)
    {
      if prePrepare.Some? {
        lockedHash := prePrepare.value.proposal.hash;
      }
    }

    method UnlockHash()
      modifies this`lockedHash
      ensures lockedHash == NIL_HASH
    {
      lockedHash := NIL_HASH;
    }

    predicate IsHashLocked() reads this { lockedHash != NIL_HASH }
  }

  lemma CountNext(names: seq<Id>, i: nat, c: set<Id>)
    requires Distinct(names) && i < |names|
    ensures |Members(names[..i + 1]) * c| == |Members(names[..i]) * c| + (if names[i] in c then 1 else 0)
  {
    var counted, v := Members(names[..i]), names[i];
    assert names[..i + 1] == names[..i] + [v];
    assert Members(names[..i + 1]) == counted + {v};
    assert v !in counted;
    if v in c {
      assert (counted + {v}) * c == counted * c + {v};
    } else {
      assert (counted + {v}) * c == counted * c;
    }
  }

  /** A duplicate-free list as long as the set names every sender. */
  lemma SendersCover(list: seq<Message>, ms: MessageMap)
    requires Lists(list, ms) && |list| == |ms|
    ensures Members(Senders(list)) == ms.Keys
  {
    var names := Senders(list);
    DistinctSize(names);
    assert Members(names) <= ms.Keys;
    assert ms.Keys == Members(names) + (ms.Keys - Members(names));
  }

  /**
   * Round changes of the current sequence, by the key of their round: the message sets live
   * inside the one dictionary, by sender.
   */
  class RoundChangeSet {
    const valSet: seq<Id>
    var roundChanges: map<nat, MessageMap>

    constructor (valSet: seq<Id>)
      ensures this.valSet == valSet && roundChanges == map[]
    {
      this.valSet := valSet;
      roundChanges := map[];
    }

    /** Store the message; the set of its round is created even if the sender is then refused. */
    method Add(msg: Message) returns (num: nat, err: Err)
      requires msg.RoundChangeMsg?
      modifies this
      ensures roundChanges == AddRoundChange(old(roundChanges), valSet, msg)
      ensures err == if msg.from in valSet then Ok else Unauthorized
      ensures err == Ok ==> num == |roundChanges[Low64(msg.view.round)]|
    {
      var round := Low64(msg.view.round);
      if round !in roundChanges {
        roundChanges := roundChanges[round := map[]];
      }
      if msg.from !in valSet {
        return 0, Unauthorized;
      }
      roundChanges := roundChanges[round := roundChanges[round][msg.from := msg]];
      return |roundChanges[round]|, Ok;
    }

    /** Drop the empty sets and those of smaller rounds. */
    method Clear(round: nat)
      modifies this
      ensures roundChanges == ClearBelow(old(roundChanges), round)
    {
      var todo := roundChanges.Keys;
      ghost var before := roundChanges;
      while todo != {}
        invariant todo <= before.Keys
        invariant forall k :: k in roundChanges ==> k in before && roundChanges[k] == before[k]
        invariant forall k :: k in before ==>
                    (k in roundChanges <==> k in todo || (before[k] != map[] && k >= Low64(round)))
        decreases todo
      {
        var k :| k in todo;
        if |roundChanges[k]| == 0 || k < Low64(round) {
          roundChanges := roundChanges - {k};
        }
        todo := todo - {k};
      }
    }

    /** The greatest round with at least `num` messages, or none. */
    method GreatestRound(num: int) returns (maxRound: Option<int>)
      ensures maxRound == MaxRound(roundChanges, num)
    {
      maxRound := None;
      var todo := roundChanges.Keys;
      ghost var seen: set<nat> := {};
      while todo != {}
        invariant todo + seen == roundChanges.Keys
        invariant match maxRound
                  case None => forall k :: k in seen ==> !HasAtLeast(roundChanges, num, k)
                  case Some(x) =>
                    && (exists k :: HasAtLeast(roundChanges, num, k) && AsInt64(k) == x)
                    && (forall k :: k in seen && HasAtLeast(roundChanges, num, k) ==> AsInt64(k) <= x)
        decreases todo
      {
        var k :| k in todo;
        if |roundChanges[k]| >= num && (maxRound.None? || maxRound.value < AsInt64(k)) {
          assert HasAtLeast(roundChanges, num, k);
          maxRound := Some(AsInt64(k));
        }
        todo, seen := todo - {k}, seen + {k};
      }
      MaxRoundIsUnique(roundChanges, num, maxRound, MaxRound(roundChanges, num));
    }
  }
}
