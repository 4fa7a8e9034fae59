/** Voting on managers: a running tally that must agree with the recorded votes. */
module ManagerVotes {
  import opened Protocol

  /** A 20-byte account address read as a number. */
  type Address = nat

  datatype Vote = Vote(manager: Address, candidate: Address, authorize: bool) {
    predicate On(m: Address, c: Address) { manager == m && candidate == c }
  }

  datatype Tally = Tally(authorize: bool, votes: nat)

  type TallyMap = map<Address, Tally>

  datatype Ballots = Ballots(managers: set<Address>, votes: seq<Vote>, tally: TallyMap)

  // ----- the operations on values -----

  /** Only outsiders can be admitted and only managers removed. */
  predicate CheckVote(managers: set<Address>, candidate: Address, authorize: bool) {
    authorize == (candidate !in managers)
  }

  function Cast(tally: TallyMap, candidate: Address, authorize: bool): TallyMap {
    if candidate in tally then tally[candidate := tally[candidate].(votes := tally[candidate].votes + 1)]
    else tally[candidate := Tally(authorize, 1)]
  }

  function Uncast(tally: TallyMap, candidate: Address, authorize: bool): TallyMap {
    if candidate !in tally || tally[candidate].authorize != authorize then tally
    else if tally[candidate].votes > 1 then
      tally[candidate := tally[candidate].(votes := tally[candidate].votes - 1)]
    else tally - {candidate}
  }

  function FirstOn(votes: seq<Vote>, m: Address, c: Address): (i: int)
    ensures -1 <= i < |votes|
    ensures i >= 0 ==> votes[i].On(m, c) && forall k :: 0 <= k < i ==> !votes[k].On(m, c)
    ensures i == -1 ==> forall k :: 0 <= k < |votes| ==> !votes[k].On(m, c)
  {
    if votes == [] then -1
    else if votes[0].On(m, c) then 0
    else
      var i := FirstOn(votes[1..], m, c);
      assert forall k :: 1 <= k < |votes| ==> votes[k] == votes[1..][k - 1];
      if i < 0 then -1 else i + 1
  }

  function Withdraw(b: Ballots, m: Address, c: Address): Ballots {
    var i := FirstOn(b.votes, m, c);
    if i < 0 then b
    else b.(votes := b.votes[..i] + b.votes[i + 1..], tally := Uncast(b.tally, c, b.votes[i].authorize))
  }

  function Record(b: Ballots, v: Vote): Ballots {
    if CheckVote(b.managers, v.candidate, v.authorize)
    then b.(votes := b.votes + [v], tally := Cast(b.tally, v.candidate, v.authorize))
    else b
  }

  function NotAbout(votes: seq<Vote>, c: Address): seq<Vote> {
    if votes == [] then []
    else
      var r := NotAbout(votes[..|votes| - 1], c);
      var w := votes[|votes| - 1];
      if w.candidate == c then r else r + [w]
  }

  function Settle(b: Ballots, c: Address): Ballots {
    if c in b.tally && b.tally[c].votes > |b.managers| / 2 then
      if b.tally[c].authorize then Ballots(b.managers + {c}, b.votes, b.tally - {c})
      else Ballots(b.managers - {c}, NotAbout(b.votes, c), b.tally - {c})
    else b
  }

  /** applyMVotes: withdraw the voter's earlier vote on the candidate, record the new one, settle. */
  function Apply(b: Ballots, vote: Option<Vote>): Ballots {
    match vote
    case None => b
    case Some(v) => Settle(Record(Withdraw(b, v.manager, v.candidate), v), v.candidate)
  }

  function Reset(b: Ballots): Ballots { Ballots(b.managers, [], map[]) }

  datatype Event = Voted(vote: Option<Vote>) | Epoch

  function Run(b: Ballots, events: seq<Event>): Ballots {
    if events == [] then b
    else
      var before := Run(b, events[..|events| - 1]);
      match events[|events| - 1]
      case Voted(v) => Apply(before, v)
      case Epoch => Reset(before)
  }

  // ----- the reference: no tally, recount the set of standing votes every time -----

  datatype Ledger = Ledger(managers: set<Address>, votes: set<Vote>)

  ghost function Backing(votes: set<Vote>, c: Address, authorize: bool): set<Vote> {
    set w | w in votes && w.candidate == c && w.authorize == authorize
  }

  ghost function Voters(votes: set<Vote>, c: Address, authorize: bool): set<Address> {
    set w | w in Backing(votes, c, authorize) :: w.manager
  }

  /** The standing votes once `v` has replaced its voter's earlier vote on the candidate. */
  ghost function Revoted(l: Ledger, v: Vote): set<Vote> {
    (set w | w in l.votes && !w.On(v.manager, v.candidate))
    + if CheckVote(l.managers, v.candidate, v.authorize) then {v} else {}
  }

  /** A strict majority of the managers, counted as distinct voters against the present standing. */
  ghost predicate Carried(managers: set<Address>, votes: set<Vote>, c: Address) {
    2 * |Voters(votes, c, c !in managers)| > |managers|
  }

  ghost function Recount(l: Ledger, vote: Option<Vote>): Ledger {
    match vote
    case None => l
    case Some(v) =>
      var votes := Revoted(l, v);
      var c := v.candidate;
      if !Carried(l.managers, votes, c) then Ledger(l.managers, votes)
      else if c !in l.managers then Ledger(l.managers + {c}, votes)
      else Ledger(l.managers - {c}, set w | w in votes && w.candidate != c)
  }

  ghost function RecountRun(l: Ledger, events: seq<Event>): Ledger {
    if events == [] then l
    else
      var before := RecountRun(l, events[..|events| - 1]);
      match events[|events| - 1]
      case Voted(v) => Recount(before, v)
      case Epoch => Ledger(before.managers, {})
  }

  ghost function Standing(b: Ballots): Ledger {
    Ledger(b.managers, set w | w in b.votes)
  }

  // ----- the invariant -----

  /** Nobody has two votes recorded on one candidate. */
  ghost predicate OneVoteEach(votes: seq<Vote>) {
    forall i, j :: 0 <= i < j < |votes| ==> !votes[i].On(votes[j].manager, votes[j].candidate)
  }

  /** The tally of c is against its present standing and counts the votes recorded that way. */
  ghost predicate Tallied(b: Ballots, c: Address) {
    var against := c !in b.managers;
    var n := |Backing(Standing(b).votes, c, against)|;
    if c in b.tally then b.tally[c] == Tally(against, n) && n > 0 else n == 0
  }

  /** Only votes to admit are recorded about a non-manager. */
  ghost predicate OutsidersOnlyAdmitted(b: Ballots) {
    forall w :: w in b.votes && w.candidate !in b.managers ==> w.authorize
  }

  ghost predicate BallotsOk(b: Ballots) {
    && OneVoteEach(b.votes)
    && OutsidersOnlyAdmitted(b)
    && forall c :: Tallied(b, c)
  }

  lemma ResetIsOk(b: Ballots)
    ensures BallotsOk(Reset(b)) && Standing(Reset(b)) == Ledger(b.managers, {})
  {
  }

  lemma WithdrawKeeps(b: Ballots, m: Address, c: Address)
    requires BallotsOk(b)
    ensures var r := Withdraw(b, m, c);
            && BallotsOk(r) && r.managers == b.managers
            && Standing(r).votes == set w | w in b.votes && !w.On(m, c)
  {
    var i := FirstOn(b.votes, m, c);
    var r := Withdraw(b, m, c);
    if i >= 0 {
      SpliceStanding(b.votes, i);
      assert Standing(r).votes == set x | x in Standing(b).votes && x != b.votes[i];
      forall d ensures Tallied(r, d) { WithdrawTallies(b, b.votes[i], r, d); }
    }
  }

  lemma WithdrawTallies(b: Ballots, w: Vote, r: Ballots, d: Address)
    requires w in b.votes && Tallied(b, d) && r.managers == b.managers
    requires r.tally == Uncast(b.tally, w.candidate, w.authorize)
    requires Standing(r).votes == set x | x in Standing(b).votes && x != w
    ensures Tallied(r, d)
  {
    BackingWithout(Standing(b).votes, w, d, d !in b.managers);
  }

  lemma SpliceStanding(votes: seq<Vote>, i: nat)
    requires i < |votes| && OneVoteEach(votes)
    ensures var r := votes[..i] + votes[i + 1..];
            && OneVoteEach(r)
            && (forall w :: w in r <==> w in votes && w != votes[i])
            && forall w :: w in votes ==> (w == votes[i] <==> w.On(votes[i].manager, votes[i].candidate))
  {
    var r := votes[..i] + votes[i + 1..];
    assert forall k :: 0 <= k < |r| ==> r[k] == votes[if k < i then k else k + 1];
    forall w | w in votes && w != votes[i] ensures w in r {
      var k :| 0 <= k < |votes| && votes[k] == w;
      assert r[if k < i then k else k - 1] == w;
    }
  }

  lemma BackingWithout(votes: set<Vote>, w: Vote, d: Address, authorize: bool)
    requires w in votes
    ensures var less := set x | x in votes && x != w;
            |Backing(less, d, authorize)|
            == |Backing(votes, d, authorize)| - (if w.candidate == d && w.authorize == authorize then 1 else 0)
  {
    var less := set x | x in votes && x != w;
    var all := Backing(votes, d, authorize);
    assert Backing(less, d, authorize) == all - {w};
  }

  lemma RecordKeeps(b: Ballots, v: Vote)
    requires BallotsOk(b) && forall w :: w in b.votes ==> !w.On(v.manager, v.candidate)
    ensures var r := Record(b, v);
            && BallotsOk(r) && r.managers == b.managers
            && Standing(r).votes == Standing(b).votes
                                    + if CheckVote(b.managers, v.candidate, v.authorize) then {v} else {}
  {
    if CheckVote(b.managers, v.candidate, v.authorize) {
      var r := Record(b, v);
      assert Standing(r).votes == Standing(b).votes + {v};
      forall d ensures Tallied(r, d) {
        assert Tallied(b, d);
        assert Standing(b).votes == set x | x in Standing(r).votes && x != v;
        BackingWithout(Standing(r).votes, v, d, d !in b.managers);
      }
    }
  }

  lemma {:induction false} VotersAreVotes(votes: set<Vote>, c: Address, authorize: bool)
    requires forall w, x :: w in votes && x in votes && w.On(x.manager, x.candidate) ==> w == x
    ensures |Voters(votes, c, authorize)| == |Backing(votes, c, authorize)|
    decreases votes
  {
    var voters, backing := Voters(votes, c, authorize), Backing(votes, c, authorize);
    if backing == {} {
      assert voters == {};
    } else {
      var w :| w in backing;
      var rest := set x | x in votes && x != w;
      assert rest < votes by { assert w in votes && w !in rest; }
      VotersAreVotes(rest, c, authorize);
      assert Backing(rest, c, authorize) == backing - {w};
      assert Voters(rest, c, authorize) == voters - {w.manager};
    }
  }

  lemma SettleKeeps(b: Ballots, c: Address)
    requires BallotsOk(b)
    ensures BallotsOk(Settle(b, c))
    ensures var r, votes := Settle(b, c), Standing(b).votes;
            Standing(r) ==
            if !Carried(b.managers, votes, c) then Standing(b)
            else if c !in b.managers then Ledger(b.managers + {c}, votes)
            else Ledger(b.managers - {c}, set w | w in votes && w.candidate != c)
  {
    var r, votes := Settle(b, c), Standing(b).votes;
    assert Tallied(b, c);
    VotersAreVotes(votes, c, c !in b.managers);
    NotAboutMembers(b.votes, c);
    if Carried(b.managers, votes, c) {
      if c !in b.managers {
        AdmitKeeps(b, c, r);
      } else {
        RemoveKeeps(b, c, r);
      }
    }
  }

  lemma AdmitKeeps(b: Ballots, c: Address, r: Ballots)
    requires BallotsOk(b) && c !in b.managers
    requires r == Ballots(b.managers + {c}, b.votes, b.tally - {c})
    ensures BallotsOk(r)
  {
    forall d ensures Tallied(r, d) {
      assert Tallied(b, d);
      if d == c { assert Backing(Standing(b).votes, c, false) == {}; }
    }
  }

  lemma RemoveKeeps(b: Ballots, c: Address, r: Ballots)
    requires BallotsOk(b) && c in b.managers
    requires r == Ballots(b.managers - {c}, NotAbout(b.votes, c), b.tally - {c})
    ensures BallotsOk(r)
  {
    NotAboutKeepsPairs(b.votes, c);
    NotAboutMembers(b.votes, c);
    forall d ensures Tallied(r, d) {
      assert Tallied(b, d);
      if d == c {
        assert Backing(Standing(r).votes, c, true) == {};
      } else {
        assert Backing(Standing(r).votes, d, d !in b.managers) == Backing(Standing(b).votes, d, d !in b.managers);
      }
    }
  }

  lemma {:induction false} NotAboutMembers(votes: seq<Vote>, c: Address)
    ensures forall w :: w in NotAbout(votes, c) <==> w in votes && w.candidate != c
  {
    if votes != [] {
      var k := |votes| - 1;
      NotAboutMembers(votes[..k], c);
      assert votes == votes[..k] + [votes[k]];
    }
  }

  lemma {:induction false} NotAboutKeepsPairs(votes: seq<Vote>, c: Address)
    requires OneVoteEach(votes)
    ensures OneVoteEach(NotAbout(votes, c))
  {
    if votes != [] {
      var k := |votes| - 1;
      NotAboutKeepsPairs(votes[..k], c);
      NotAboutMembers(votes[..k], c);
      var r := NotAbout(votes[..k], c);
      forall i | 0 <= i < |r| ensures !r[i].On(votes[k].manager, votes[k].candidate) {
        assert r[i] in votes[..k];
        var j :| 0 <= j < k && votes[j] == r[i];
      }
    }
  }

  // ----- the theorems -----

  /** One vote keeps the invariant and does what a recount of the standing votes would do. */
  lemma ApplyIsRecount(b: Ballots, vote: Option<Vote>)
    requires BallotsOk(b)
    ensures BallotsOk(Apply(b, vote)) && Standing(Apply(b, vote)) == Recount(Standing(b), vote)
  {
    if vote.Some? {
      var v := vote.value;
      WithdrawKeeps(b, v.manager, v.candidate);
      var b1 := Withdraw(b, v.manager, v.candidate);
      forall w | w in b1.votes ensures !w.On(v.manager, v.candidate) { assert w in Standing(b1).votes; }
      RecordKeeps(b1, v);
      var b2 := Record(b1, v);
      assert Standing(b2).votes == Revoted(Standing(b), v);
      SettleKeeps(b2, v.candidate);
    }
  }

  /** Over every sequence of votes and epoch resets, the running tally never departs from a recount. */
  lemma {:induction false} RunIsRecount(b: Ballots, events: seq<Event>)
    requires BallotsOk(b)
    ensures BallotsOk(Run(b, events)) && Standing(Run(b, events)) == RecountRun(Standing(b), events)
  {
    if events != [] {
      var k := |events| - 1;
      RunIsRecount(b, events[..k]);
      if events[k].Voted? {
        ApplyIsRecount(Run(b, events[..k]), events[k].vote);
      } else {
        ResetIsOk(Run(b, events[..k]));
      }
    }
  }

  /**
   * In every reachable state a vote changes the managers only by its own candidate, and does so
   * exactly when more than half of them is matched by distinct voters recorded that way;
   * after a removal no vote about the candidate is left.
   */
  lemma ManagersChangeByMajority(managers: set<Address>, events: seq<Event>, v: Vote)
    ensures var b := Run(Ballots(managers, [], map[]), events);
            var r := Apply(b, Some(v));
            var backers := Voters(Revoted(Standing(b), v), v.candidate, v.candidate !in b.managers);
            && (r.managers != b.managers <==> 2 * |backers| > |b.managers|)
            && (r.managers == b.managers || r.managers == b.managers + {v.candidate}
                || r.managers == b.managers - {v.candidate})
            && (v.candidate in b.managers - r.managers ==> forall w :: w in r.votes ==> w.candidate != v.candidate)
  {
    var start := Ballots(managers, [], map[]);
    ResetIsOk(start);
    RunIsRecount(start, events);
    var b := Run(start, events);
    ApplyIsRecount(b, Some(v));
    var r := Apply(b, Some(v));
    forall w | w in r.votes ensures w in Standing(r).votes {}
  }

  // ----- when the majority is one of managers -----

  /** Everybody was a manager when voting. */
  ghost predicate VotersAreManagers(b: Ballots, events: seq<Event>) {
    events == [] ||
    var before, last := Run(b, events[..|events| - 1]), events[|events| - 1];
    && VotersAreManagers(b, events[..|events| - 1])
    && (last.Voted? && last.vote.Some? ==> last.vote.value.manager in before.managers)
  }

  /** Nobody was removed while a vote of theirs stood. */
  ghost predicate NoVoterRemoved(b: Ballots, events: seq<Event>) {
    events == [] ||
    var before, after := Run(b, events[..|events| - 1]), Run(b, events);
    && NoVoterRemoved(b, events[..|events| - 1])
    && forall w :: w in after.votes ==> w.manager !in before.managers - after.managers
  }

  lemma {:induction false} StandingVotesAreManagers(managers: set<Address>, events: seq<Event>)
    requires var start := Ballots(managers, [], map[]);
             VotersAreManagers(start, events) && NoVoterRemoved(start, events)
    ensures var b := Run(Ballots(managers, [], map[]), events); forall w :: w in b.votes ==> w.manager in b.managers
  {
    var start := Ballots(managers, [], map[]);
    if events != [] {
      var k := |events| - 1;
      StandingVotesAreManagers(managers, events[..k]);
      ResetIsOk(start);
      RunIsRecount(start, events[..k]);
      if events[k].Voted? { VotesComeFrom(Run(start, events[..k]), events[k].vote); }
    }
  }

  lemma VotesComeFrom(b: Ballots, vote: Option<Vote>)
    requires BallotsOk(b)
    ensures forall w :: w in Apply(b, vote).votes ==> w in b.votes || vote == Some(w)
  {
    ApplyIsRecount(b, vote);
    forall w | w in Apply(b, vote).votes ensures w in b.votes || vote == Some(w) {
      assert w in Standing(Apply(b, vote)).votes;
    }
  }

  /**
   * The managers change only by a majority of managers, when everybody who votes is a manager at
   * that time and nobody is removed while a vote of theirs stands.
   */
  lemma BackersAreManagers(managers: set<Address>, events: seq<Event>, v: Vote)
    requires var start := Ballots(managers, [], map[]);
             VotersAreManagers(start, events + [Voted(Some(v))]) && NoVoterRemoved(start, events)
    ensures var b := Run(Ballots(managers, [], map[]), events);
            var backers := Voters(Revoted(Standing(b), v), v.candidate, v.candidate !in b.managers);
            && backers <= b.managers
            && (Apply(b, Some(v)).managers != b.managers <==> 2 * |backers| > |b.managers|)
  {
    hide Apply, Run, NoVoterRemoved;
    assert (events + [Voted(Some(v))])[..|events|] == events;
    StandingVotesAreManagers(managers, events);
    ManagersChangeByMajority(managers, events, v);
  }

  /**
   * Exactly when it takes managers to change the managers: the votes of managers have only managers
   * behind them if and only if every standing vote that can still count is by a manager.
   */
  lemma BackersAreManagersExactly(b: Ballots)
    requires b.managers != {}
    ensures (forall w :: w in b.votes && w.authorize == (w.candidate !in b.managers) ==> w.manager in b.managers) <==>
            forall v: Vote :: v.manager in b.managers ==>
              Voters(Revoted(Standing(b), v), v.candidate, v.candidate !in b.managers) <= b.managers
  {
    if w :| w in b.votes && w.authorize == (w.candidate !in b.managers) && w.manager !in b.managers {
      var m :| m in b.managers;
      var v := Vote(m, w.candidate, w.authorize);
      assert w in Backing(Revoted(Standing(b), v), v.candidate, v.candidate !in b.managers);
      assert w.manager in Voters(Revoted(Standing(b), v), v.candidate, v.candidate !in b.managers);
    }
  }

  /** Of the two conditions the first is needed: an outsider admits itself where there is one manager. */
  lemma OutsiderAdmitsItself(a: Address, b: Address)
    requires a != b
    ensures var start := Ballots({a}, [], map[]);
            && Apply(start, Some(Vote(b, b, true))).managers == {a, b}
            && !VotersAreManagers(start, [Voted(Some(Vote(b, b, true)))])
            && NoVoterRemoved(start, [Voted(Some(Vote(b, b, true)))])
  {
    var e := Voted(Some(Vote(b, b, true)));
    assert [e][..0] == [];
    assert Run(Ballots({a}, [], map[]), [e]).managers == {a, b};
  }

  lemma ThreeVotes(b: Ballots, x: Vote, y: Vote, z: Vote)
    ensures var events := [Voted(Some(x)), Voted(Some(y)), Voted(Some(z))];
            var b1 := Apply(b, Some(x));
            var b2 := Apply(b1, Some(y));
            var b3 := Apply(b2, Some(z));
            && Run(b, events) == b3
            && (VotersAreManagers(b, events) <==>
                  x.manager in b.managers && y.manager in b1.managers && z.manager in b2.managers)
            && (NoVoterRemoved(b, events) ==> forall w :: w in b3.votes ==> w.manager !in b2.managers - b3.managers)
  {
    hide Apply;
    var events := [Voted(Some(x)), Voted(Some(y)), Voted(Some(z))];
    var e0, e1, e2 := events[..0], events[..1], events[..2];
    assert e1[..0] == e0 == [] && e2[..1] == e1 && events[..2] == e2;
    var b1, b2 := Apply(b, Some(x)), Apply(Apply(b, Some(x)), Some(y));
    assert Run(b, e0) == b && Run(b, e1) == b1 && Run(b, e2) == b2;
    assert VotersAreManagers(b, e1) <==> x.manager in b.managers;
    assert VotersAreManagers(b, e2) <==> x.manager in b.managers && y.manager in b1.managers;
  }

  /** Manager 3 votes for 9 and is then removed by managers 1 and 2. */
  lemma RemovalByTwo()
    ensures var b := Ballots({1, 2, 3}, [], map[]);
            var b1 := Apply(b, Some(Vote(3, 9, true)));
            var b2 := Apply(b1, Some(Vote(1, 3, false)));
            && b1.managers == b2.managers == {1, 2, 3}
            && Apply(b2, Some(Vote(2, 3, false))) == Ballots({1, 2}, [Vote(3, 9, true)], map[9 := Tally(true, 1)])
  {
    hide Apply;
    var x, y, z := Vote(3, 9, true), Vote(1, 3, false), Vote(2, 3, false);
    FirstOfThree(x);
    SecondOfThree(x, y);
    ThirdOfThree(x, y, z);
  }

  lemma FirstOfThree(x: Vote)
    requires x == Vote(3, 9, true)
    ensures Apply(Ballots({1, 2, 3}, [], map[]), Some(x)) == Ballots({1, 2, 3}, [x], map[9 := Tally(true, 1)])
  {
  }

  lemma SecondOfThree(x: Vote, y: Vote)
    requires x == Vote(3, 9, true) && y == Vote(1, 3, false)
    ensures Apply(Ballots({1, 2, 3}, [x], map[9 := Tally(true, 1)]), Some(y))
            == Ballots({1, 2, 3}, [x, y], map[9 := Tally(true, 1), 3 := Tally(false, 1)])
  {
    assert FirstOn([x], 1, 3) == -1;
  }

  lemma ThirdOfThree(x: Vote, y: Vote, z: Vote)
    requires x == Vote(3, 9, true) && y == Vote(1, 3, false) && z == Vote(2, 3, false)
    ensures Apply(Ballots({1, 2, 3}, [x, y], map[9 := Tally(true, 1), 3 := Tally(false, 1)]), Some(z))
            == Ballots({1, 2}, [x], map[9 := Tally(true, 1)])
  {
    var b := Ballots({1, 2, 3}, [x, y], map[9 := Tally(true, 1), 3 := Tally(false, 1)]);
    assert FirstOn([x, y], 2, 3) == -1;
    var r := Record(b, z);
    assert r == Ballots({1, 2, 3}, [x, y, z], map[9 := Tally(true, 1), 3 := Tally(false, 2)]);
    OnlyFirst(x, y, z);
    assert r.tally - {3} == map[9 := Tally(true, 1)];
    assert r.managers - {3} == {1, 2};
  }

  lemma OnlyFirst(x: Vote, y: Vote, z: Vote)
    requires x.candidate != y.candidate == z.candidate
    ensures NotAbout([x, y, z], y.candidate) == [x]
  {
    assert [x, y, z][..2] == [x, y] && [x, y][..1] == [x] && [x][..0] == [];
    assert NotAbout([x], y.candidate) == [x] && NotAbout([x, y], y.candidate) == [x];
  }

  lemma StaleVoteAdmits()
    ensures var b, v := Ballots({1, 2}, [Vote(3, 9, true)], map[9 := Tally(true, 1)]), Vote(1, 9, true);
            Apply(b, Some(v)).managers == {1, 2, 9} && Voters(Revoted(Standing(b), v), 9, true) == {1, 3}
  {
    var b, v := Ballots({1, 2}, [Vote(3, 9, true)], map[9 := Tally(true, 1)]), Vote(1, 9, true);
    assert Revoted(Standing(b), v) == {Vote(3, 9, true), v};
    assert Vote(3, 9, true) in Backing({Vote(3, 9, true), v}, 9, true) && v in Backing({Vote(3, 9, true), v}, 9, true);
  }

  /** The second is needed too: a vote of a removed manager still counts, and admits with one manager of two. */
  lemma RemovedManagerStillCounts()
    ensures var start, v := Ballots({1, 2, 3}, [], map[]), Vote(1, 9, true);
            var x, y, z := Vote(3, 9, true), Vote(1, 3, false), Vote(2, 3, false);
            var events := [Voted(Some(x)), Voted(Some(y)), Voted(Some(z))];
            var b := Run(start, events);
            && VotersAreManagers(start, events + [Voted(Some(v))]) && !NoVoterRemoved(start, events)
            && b.managers == {1, 2} && Apply(b, Some(v)).managers == {1, 2, 9}
            && Voters(Revoted(Standing(b), v), 9, true) == {1, 3}
  {
    hide Apply, Voters, Run, NoVoterRemoved;
    var start, x := Ballots({1, 2, 3}, [], map[]), Vote(3, 9, true);
    var events := [Voted(Some(x)), Voted(Some(Vote(1, 3, false))), Voted(Some(Vote(2, 3, false)))];
    ThreeVotes(start, x, Vote(1, 3, false), Vote(2, 3, false));
    RemovalByTwo();
    StaleVoteAdmits();
    assert (events + [Voted(Some(Vote(1, 9, true)))])[..3] == events;
    assert x in [x] && x.manager == 3;
  }

  // ----- the object -----

  class VoteSnapshot {
    var managers: set<Address>
    var mVotes: seq<Vote>
    var mTally: TallyMap

    ghost function State(): Ballots reads this { Ballots(managers, mVotes, mTally) }

    /** A snapshot with the given managers and empty tallies. */
    constructor (managers: seq<Address>)
      ensures State() == Ballots(set m | m in managers, [], map[]) && BallotsOk(State())
    {
      var all: set<Address> := {};
      for i := 0 to |managers|
        invariant all == set m | m in managers[..i]
      {
        all := all + {managers[i]};
      }
      this.managers, mVotes, mTally := all, [], map[];
      assert managers[..|managers|] == managers;
      new;
      ResetIsOk(State());
    }

    predicate CheckMVote(candidate: Address, authorize: bool)
      reads this
    {
      var ok := candidate in managers;
      (ok && !authorize) || (!ok && authorize)
    }

    method CastM(candidate: Address, authorize: bool) returns (done: bool)
      modifies this`mTally
      ensures done == CheckVote(managers, candidate, authorize)
      ensures mTally == if done then Cast(old(mTally), candidate, authorize) else old(mTally)
    {
      if !CheckMVote(candidate, authorize) { return false; }
      if candidate in mTally {
        var was := mTally[candidate];
        mTally := mTally[candidate := was.(votes := was.votes + 1)];
      } else {
        mTally := mTally[candidate := Tally(authorize, 1)];
      }
      return true;
    }

    method UncastM(candidate: Address, authorize: bool) returns (done: bool)
      modifies this`mTally
      ensures done == (candidate in old(mTally) && old(mTally)[candidate].authorize == authorize)
      ensures mTally == Uncast(old(mTally), candidate, authorize)
    {
      if candidate !in mTally { return false; }
      var tally := mTally[candidate];
      if tally.authorize != authorize { return false; }
      if tally.votes > 1 {
        mTally := mTally[candidate := tally.(votes := tally.votes - 1)];
      } else {
        mTally := mTally - {candidate};
      }
      return true;
    }

    /** Drops the earlier vote of m on c, if there is one. */
    method WithdrawVote(m: Address, c: Address)
      modifies this`mVotes, this`mTally
      ensures State() == Withdraw(old(State()), m, c)
    {
      var i := 0;
      while i < |mVotes|
        invariant 0 <= i <= |mVotes| && State() == old(State())
        invariant forall k :: 0 <= k < i ==> !mVotes[k].On(m, c)
      {
        if mVotes[i].manager == m && mVotes[i].candidate == c {
          assert FirstOn(mVotes, m, c) == i;
          var _ := UncastM(mVotes[i].candidate, mVotes[i].authorize);
          mVotes := mVotes[..i] + mVotes[i + 1..];
          return;
        }
        i := i + 1;
      }
    }

    /** Takes every vote about c out of the list; the tally changes for c alone. */
    method DiscardVotes(c: Address)
      modifies this`mVotes, this`mTally
      ensures mVotes == NotAbout(old(mVotes), c)
      ensures mTally - {c} == old(mTally) - {c}
    {
      var i := 0;
      while i < |mVotes|
        invariant 0 <= i <= |mVotes|
        invariant forall k :: 0 <= k < i ==> mVotes[k].candidate != c
        invariant NotAbout(mVotes, c) == NotAbout(old(mVotes), c)
        invariant mTally - {c} == old(mTally) - {c}
        decreases |mVotes| - i
      {
        if mVotes[i].candidate == c {
          var _ := UncastM(c, mVotes[i].authorize);
          SpliceOut(mVotes, i, c);
          mVotes := mVotes[..i] + mVotes[i + 1..];
        } else {
          i := i + 1;
        }
      }
      NothingToDrop(mVotes, c);
    }

    method ApplyMVotes(mVote: Option<Vote>)
      modifies this
      ensures State() == Apply(old(State()), mVote)
      ensures old(BallotsOk(State())) ==>
              BallotsOk(State()) && Standing(State()) == Recount(old(Standing(State())), mVote)
    {
      if old(BallotsOk(State())) { ApplyIsRecount(State(), mVote); }
      if mVote.None? { return; }
      var vote := mVote.value;
      var candidate := vote.candidate;
      WithdrawVote(vote.manager, candidate);
      var cast := CastM(candidate, vote.authorize);
      if cast { mVotes := mVotes + [vote]; }
      if candidate in mTally && mTally[candidate].votes > |managers| / 2 {
        if mTally[candidate].authorize {
          managers := managers + {candidate};
        } else {
          managers := managers - {candidate};
          DiscardVotes(candidate);
        }
        mTally := mTally - {candidate};
      }
    }

    method ResetVotes()
      modifies this`mVotes, this`mTally
      ensures State() == Reset(old(State())) && BallotsOk(State())
    {
      mVotes, mTally := [], map[];
      ResetIsOk(State());
    }

    /** A deep copy: the same ballots in an object of its own. */
    method Copy() returns (copy: VoteSnapshot)
      ensures fresh(copy) && copy.State() == State()
    {
      copy := new VoteSnapshot([]);
      copy.managers, copy.mVotes, copy.mTally := managers, mVotes, mTally;
    }
  }

  lemma {:induction false} NothingToDrop(votes: seq<Vote>, c: Address)
    requires forall k :: 0 <= k < |votes| ==> votes[k].candidate != c
    ensures NotAbout(votes, c) == votes
  {
    if votes != [] { NothingToDrop(votes[..|votes| - 1], c); }
  }

  lemma {:induction false} SpliceOut(votes: seq<Vote>, i: nat, c: Address)
    requires i < |votes| && votes[i].candidate == c
    ensures NotAbout(votes[..i] + votes[i + 1..], c) == NotAbout(votes, c)
  {
    var k := |votes| - 1;
    var rest := votes[..i] + votes[i + 1..];
    if i == k {
      assert rest == votes[..k];
    } else {
      SpliceOut(votes[..k], i, c);
      assert rest[..k - 1] == votes[..k][..i] + votes[..k][i + 1..];
      assert rest[k - 1] == votes[k];
    }
  }
}
