/** The check of a block's committed seals against the parent's validators. */
module Seals {
  import opened Protocol
  import opened Quorum
  import opened Selector
  import opened Ordering
  import opened NodeSpec
  import opened NodeLaws
  import opened MessageSets
  import opened CoreEngine
  import opened ValidatorSets

  datatype Verdict = Accepted | EmptyCommittedSeals | InvalidSignature | InvalidCommittedSeals

  /** A collected seal, absent when a COMMIT carried none, and how its signer is recovered. */
  type RawSeal = Option<Seal>
  type Recovery = RawSeal -> Option<Id>

  /** Every seal has a signer: the ids, in the order of the seals. */
  ghost predicate Recovers(recover: Recovery, seals: seq<RawSeal>, signers: seq<Id>) {
    |signers| == |seals| && forall k :: 0 <= k < |seals| ==> recover(seals[k]) == Some(signers[k])
  }

  /** Some list of signers stands behind the seals, none used more often than it is listed. */
  ghost predicate Signed(recover: Recovery, seals: seq<RawSeal>, ids: seq<Id>) {
    exists signers :: Recovers(recover, seals, signers) && multiset(signers) <= multiset(ids)
  }

  /** The seals of pairwise distinct members. */
  ghost predicate SignedByDistinct(recover: Recovery, seals: seq<RawSeal>, ids: seq<Id>) {
    exists signers :: Recovers(recover, seals, signers) && Distinct(signers) && Members(signers) <= Members(ids)
  }

  lemma SubBag(a: seq<Id>, ids: seq<Id>)
    requires Distinct(ids)
    ensures multiset(a) <= multiset(ids) <==> Distinct(a) && Members(a) <= Members(ids)
  {
    forall x ensures multiset(ids)[x] == if x in ids then 1 else 0 { CountDistinct(ids, x); }
    if multiset(a) <= multiset(ids) {
      forall x ensures multiset(a)[x] <= 1 { assert multiset(a)[x] <= multiset(ids)[x]; }
      DistinctByCount(a);
      forall x | x in a ensures x in ids { assert x in multiset(a); }
    }
    if Distinct(a) && Members(a) <= Members(ids) {
      forall x ensures multiset(a)[x] <= multiset(ids)[x] {
        CountDistinct(a, x);
        if x in a { assert x in Members(ids); }
      }
    }
  }

  lemma SignersAreDistinct(recover: Recovery, seals: seq<RawSeal>, ids: seq<Id>)
    requires Distinct(ids)
    ensures Signed(recover, seals, ids) <==> SignedByDistinct(recover, seals, ids)
  {
    forall a: seq<Id> ensures multiset(a) <= multiset(ids) <==> Distinct(a) && Members(a) <= Members(ids) {
      SubBag(a, ids);
    }
  }

  /** The seals before the k-th are in order and the k-th is the first that is not. */
  ghost predicate BreaksAt(recover: Recovery, seals: seq<RawSeal>, ids: seq<Id>, k: nat) {
    k < |seals| && Signed(recover, seals[..k], ids) && !Signed(recover, seals[..k + 1], ids)
  }

  lemma SignersAreUnique(recover: Recovery, seals: seq<RawSeal>, ids: seq<Id>, signers: seq<Id>)
    requires Recovers(recover, seals, signers)
    ensures Signed(recover, seals, ids) <==> multiset(signers) <= multiset(ids)
  {
    if Signed(recover, seals, ids) {
      var others :| Recovers(recover, seals, others) && multiset(others) <= multiset(ids);
      assert others == signers;
    }
  }

  lemma PrefixIsSigned(recover: Recovery, seals: seq<RawSeal>, ids: seq<Id>, a: nat)
    requires a <= |seals| && Signed(recover, seals, ids)
    ensures Signed(recover, seals[..a], ids)
  {
    var signers :| Recovers(recover, seals, signers) && multiset(signers) <= multiset(ids);
    assert signers == signers[..a] + signers[a..];
    assert Recovers(recover, seals[..a], signers[..a]);
  }

  lemma BreaksOnce(recover: Recovery, seals: seq<RawSeal>, ids: seq<Id>, k: nat)
    requires Signed(recover, seals, ids) || BreaksAt(recover, seals, ids, k)
    ensures forall j: nat :: BreaksAt(recover, seals, ids, j) ==> j == k && !Signed(recover, seals, ids)
  {
    hide Signed;
    forall a, b | 0 <= a <= b <= |seals| && Signed(recover, seals[..b], ids) ensures Signed(recover, seals[..a], ids) {
      PrefixIsSigned(recover, seals[..b], ids, a);
      assert seals[..b][..a] == seals[..a];
    }
    assert seals[..|seals|] == seals;
  }

  /** One more seal is in order exactly when its signer is known and still unused. */
  lemma OneMoreSeal(recover: Recovery, seals: seq<RawSeal>, ids: seq<Id>, k: nat, signers: seq<Id>, left: multiset<Id>)
    requires k < |seals| && Recovers(recover, seals[..k], signers) && multiset(signers) + left == multiset(ids)
    ensures var id := recover(seals[k]);
            if id.Some? && id.value in left then Recovers(recover, seals[..k + 1], signers + [id.value])
            else BreaksAt(recover, seals, ids, k)
  {
    hide Signed;
    var id := recover(seals[k]);
    SignersAreUnique(recover, seals[..k], ids, signers);
    if id.Some? {
      SignersAreUnique(recover, seals[..k + 1], ids, signers + [id.value]);
      if id.value !in left { assert multiset(signers + [id.value])[id.value] > multiset(ids)[id.value]; }
    } else {
      UnknownSigner(recover, seals[..k + 1], ids, k);
    }
  }

  lemma UnknownSigner(recover: Recovery, seals: seq<RawSeal>, ids: seq<Id>, k: nat)
    requires k < |seals| && recover(seals[k]).None?
    ensures !Signed(recover, seals, ids)
  {
  }

  /** When each verdict is given. */
  ghost predicate Judged(recover: Recovery, seals: seq<RawSeal>, ids: seq<Id>, verdict: Verdict) {
    && (verdict == EmptyCommittedSeals <==> seals == [])
    && (verdict == InvalidSignature <==> exists k: nat :: BreaksAt(recover, seals, ids, k) && recover(seals[k]).None?)
    && (verdict == Accepted <==>
          seals != [] && Signed(recover, seals, ids) && |seals| > 2 * FaultTolerantNum(|ids|))
  }

  lemma JudgeBreak(recover: Recovery, seals: seq<RawSeal>, ids: seq<Id>, k: nat)
    requires BreaksAt(recover, seals, ids, k)
    ensures Judged(recover, seals, ids,
                   if recover(seals[k]).None? then InvalidSignature else InvalidCommittedSeals)
  {
    hide Signed;
    BreaksOnce(recover, seals, ids, k);
  }

  lemma JudgeAll(recover: Recovery, seals: seq<RawSeal>, ids: seq<Id>, signers: seq<Id>, left: multiset<Id>)
    requires seals != [] && Recovers(recover, seals, signers) && multiset(signers) + left == multiset(ids)
    ensures Judged(recover, seals, ids,
                   if |seals| <= 2 * FaultTolerantNum(|ids|) then InvalidCommittedSeals else Accepted)
  {
    hide Signed, BreaksAt;
    SignersAreUnique(recover, seals, ids, signers);
    BreaksOnce(recover, seals, ids, 0);
  }

  lemma JudgeNone(recover: Recovery, ids: seq<Id>)
    ensures Judged(recover, [], ids, EmptyCommittedSeals) && Recovers(recover, [], [])
  {
  }

  /**
   * verifyCommittedSeals, from the decoded seals on: each recovered signer is taken out of a
   * copy of the set, so nobody counts twice; the set itself is left alone.
   */
  method VerifyCommittedSeals(valSet: ValidatorSet, seals: seq<RawSeal>, recover: Recovery)
    returns (verdict: Verdict)
    ensures Judged(recover, seals, valSet.validators, verdict)
  {
    hide Judged, Recovers, BreaksAt, SortIds, Removed, Sorted, FaultTolerantNum;
    JudgeNone(recover, valSet.validators);
    if |seals| == 0 { return EmptyCommittedSeals; }
    ghost var ids := valSet.validators;
    var validators := valSet.Copy();
    var validSeal := 0;
    ghost var signers: seq<Id> := [];
    assert seals[..0] == [];
    while validSeal < |seals|
      invariant 0 <= validSeal <= |seals| && valSet.validators == ids
      invariant fresh(validators)
      invariant Recovers(recover, seals[..validSeal], signers)
      invariant multiset(signers) + multiset(validators.validators) == multiset(ids)
    {
      var id := recover(seals[validSeal]);
      OneMoreSeal(recover, seals, ids, validSeal, signers, multiset(validators.validators));
      if id.None? {
        JudgeBreak(recover, seals, ids, validSeal);
        return InvalidSignature;
      }
      RemovedTakesOne(validators.validators, id.value);
      var removed := validators.RemoveValidator(id.value);
      if !removed {
        JudgeBreak(recover, seals, ids, validSeal);
        return InvalidCommittedSeals;
      }
      signers := signers + [id.value];
      validSeal := validSeal + 1;
    }
    assert seals[..validSeal] == seals;
    JudgeAll(recover, seals, ids, signers, multiset(validators.validators));
    var f := valSet.FaultTolerance();
    if validSeal <= 2 * f {
      return InvalidCommittedSeals;
    }
    return Accepted;
  }

  /** The verdict is acceptance exactly for more than 2f seals of pairwise distinct members. */
  lemma AcceptedMeans(recover: Recovery, seals: seq<RawSeal>, ids: seq<Id>, verdict: Verdict)
    requires Distinct(ids) && Judged(recover, seals, ids, verdict)
    ensures verdict == Accepted <==>
            seals != [] && SignedByDistinct(recover, seals, ids) && |seals| > 2 * FaultTolerantNum(|ids|)
  {
    SignersAreDistinct(recover, seals, ids);
  }

  lemma HeldSealsAreSigned(vals: seq<Id>, view: View, digest: Hash, commits: MessageMap,
                           seals: seq<RawSeal>, recover: Recovery)
    requires vals != [] && AllCommits(commits, vals, view, digest) && ReachThreshold(|vals|, |commits|)
    requires SealsOf(seals, commits)
    requires forall v :: v in commits ==> recover(SealIn(commits[v])) == Some(v)
    ensures seals != [] && SignedByDistinct(recover, seals, vals) && |seals| > 2 * FaultTolerantNum(|vals|)
  {
    var list :| |list| == |commits| && Lists(list, commits) && SealsFrom(seals, list);
    var signers := Senders(list);
    assert Recovers(recover, seals, signers);
    forall v | v in signers ensures v in vals {
      var k :| 0 <= k < |signers| && signers[k] == v;
      assert InSet(list[k], commits);
    }
  }

  /**
   * Whatever step makes a node call backend.Commit, the seals it collects there are accepted by
   * every verifier of the same distinct validators, if each stored seal recovers to its sender.
   */
  lemma CommittedSealsAreAccepted(n: Node, ev: Event, o: Oracle, net: set<Message>,
                                  seals: seq<RawSeal>, recover: Recovery, verdict: Verdict)
    requires NodeInv(n) && StoredIn(n, net) && (ev.Deliver? || ev.Replay? ==> ev.msg in net)
    requires n.vals != [] && Distinct(n.vals)
    requires Judged(recover, seals, n.vals, verdict)
    ensures var call := Step(n, ev, o).call;
            && call.Some? && SealsOf(seals, call.value.commits)
            && (forall v :: v in call.value.commits ==> recover(SealIn(call.value.commits[v])) == Some(v))
            ==> verdict == Accepted
  {
    hide Step;
    StepCommitsWhatItHolds(n, ev, o, net);
    AcceptedMeans(recover, seals, n.vals, verdict);
    var call := Step(n, ev, o).call;
    if && call.Some? && SealsOf(seals, call.value.commits)
       && (forall v :: v in call.value.commits ==> recover(SealIn(call.value.commits[v])) == Some(v)) {
      HeldSealsAreSigned(n.vals, n.CurrentView(), call.value.proposal.hash, call.value.commits, seals, recover);
    }
  }
}
