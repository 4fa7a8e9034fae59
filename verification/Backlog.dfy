/** The backlog of early messages: a priority queue per sender, drained up to the first future message. */
module Backlogs {
  import opened Protocol

  /** What checkMessage reads of a node. */
  datatype Stand = Stand(view: View, waiting: bool, phase: Phase)

  function Check(m: Message, st: Stand): Err { CheckMessage(m, st.view, st.waiting, st.phase) }

  predicate Future(m: Message, st: Stand) { Check(m, st) == FutureMessage }

  // ----- the numeric key -----

  const TWO_24: nat := 0x100_0000

  /** x rounded to a multiple of u, ties to an even multiple. */
  function Nearest(x: nat, u: nat): nat
    requires u > 0
  {
    var q, r := x / u, x % u;
    if 2 * r < u || (2 * r == u && q % 2 == 0) then q * u else (q + 1) * u
  }

  /** float32(x) of a uint64: 24 significant bits, with units of at least u. */
  function Float32(x: nat, u: nat): nat
    requires u > 0
    decreases if x > u then x - u else 0
  {
    if x < TWO_24 * u then Nearest(x, u) else Float32(x, 2 * u)
  }

  function Code(m: Message): nat {
    match m
    case PrePrepareMsg(_, _, _) => 1
    case CommitMsg(_, _, _, _) => 2
    case PrepareMsg(_, _, _) => 3
    case _ => 0
  }

  /** The negated priority before its conversion: uint64 arithmetic. */
  function Key(m: Message): nat {
    if m.Malformed? then 0
    else if m.RoundChangeMsg? then Low64(Low64(m.view.sequence) * 1000)
    else Low64(Low64(m.view.sequence) * 1000 + Low64(m.view.round) * 10 + Code(m))
  }

  /** toPriority, negated: the smallest value is popped first. */
  function Weight(m: Message): nat { Float32(Key(m), 1) }

  // ----- what the order has to guarantee -----

  predicate NeverFuture(m: Message) {
    m.Malformed? || (m.RoundChangeMsg? && m.view.sequence == 0)
  }

  /** m' is early whenever m is, in the terms of the two messages alone. */
  predicate RankLe(m: Message, m': Message) {
    if NeverFuture(m) then true
    else if m'.Malformed? then false
    else if m.RoundChangeMsg? then m.view.sequence <= m'.view.sequence
    else if m'.RoundChangeMsg? then m.view.sequence < m'.view.sequence
    else if m.view == m'.view then m.PrePrepareMsg? || !m'.PrePrepareMsg?
    else m.view.Cmp(m'.view) < 0
  }

  /** A state in which m is early and m' is not, when the ranks do not order them. */
  function Parting(m: Message, m': Message): Stand
    requires !m.Malformed? && !RankLe(m, m')
  {
    if m.RoundChangeMsg? then
      Stand(View(m.view.sequence - 1, if m'.Malformed? then 0 else m'.view.round + 1), false, AcceptRequest)
    else if m'.Malformed? || m.view != m'.view || m'.RoundChangeMsg? then Stand(m.view, true, AcceptRequest)
    else Stand(m.view, false, AcceptRequest)
  }

  lemma RankMeansEarliness(m: Message, m': Message)
    ensures RankLe(m, m') <==> forall st :: Future(m, st) ==> Future(m', st)
  {
    if !RankLe(m, m') {
      var st := Parting(m, m');
      assert Future(m, st) && !Future(m', st);
    }
  }

  /** The range in which the key keeps its fields apart and float32 holds it exactly. */
  predicate InRange(m: Message) {
    || m.Malformed?
    || (m.RoundChangeMsg? && m.view.sequence * 1000 <= TWO_24)
    || (m.view.round <= 99 && m.view.sequence * 1000 + m.view.round * 10 + Code(m) <= TWO_24)
  }

  lemma WeightIsExact(m: Message)
    requires InRange(m) && !m.Malformed?
    ensures Weight(m) == m.view.sequence * 1000 + (if m.RoundChangeMsg? then 0 else m.view.round * 10 + Code(m))
  {
  }

  /** In range, the numeric order embeds the order of earliness. */
  lemma WeightRespectsRank(m: Message, m': Message)
    requires InRange(m) && InRange(m') && !m.Malformed? && !m'.Malformed?
    requires Weight(m) <= Weight(m')
    ensures RankLe(m, m')
  {
    WeightIsExact(m);
    WeightIsExact(m');
  }

  // ----- early stop against a full filter -----

  type Queue = multiset<Message>

  ghost predicate WellRanked(q: Queue) {
    forall m, m' :: m in q && m' in q && Weight(m) <= Weight(m') ==> RankLe(m, m')
  }

  /** An order in which the queue may hand out its messages: lightest first, ties in any order. */
  ghost predicate PopOrder(order: seq<Message>, q: Queue) {
    multiset(order) == q && forall i, j :: 0 <= i < j < |order| ==> Weight(order[i]) <= Weight(order[j])
  }

  /** Where the loop stops: the first future message. */
  function Stop(order: seq<Message>, st: Stand): (k: nat)
    ensures k <= |order|
    ensures forall i :: 0 <= i < k ==> !Future(order[i], st)
    ensures k < |order| ==> Future(order[k], st)
  {
    if order == [] || Future(order[0], st) then 0 else 1 + Stop(order[1..], st)
  }

  /** What is left behind is exactly what is early. */
  ghost predicate Exact(order: seq<Message>, st: Stand) {
    forall i :: 0 <= i < |order| ==> (i >= Stop(order, st) <==> Future(order[i], st))
  }

  /** The early stop equals the full filter, for every state and every pop order, exactly on well ranked queues. */
  lemma EarlyStopIsExactIff(q: Queue)
    ensures WellRanked(q) <==> forall order, st :: PopOrder(order, q) ==> Exact(order, st)
  {
    if WellRanked(q) {
      forall order, st | PopOrder(order, q) ensures Exact(order, st) { RankedIsExact(order, q, st); }
    }
    if !WellRanked(q) {
      var m, m' :| m in q && m' in q && Weight(m) <= Weight(m') && !RankLe(m, m');
      var order, i, j := OrderWith(q, m, m');
      RankMeansEarliness(m, m');
      var st :| Future(m, st) && !Future(m', st);
      assert !Exact(order, st);
    }
  }

  lemma RankedIsExact(order: seq<Message>, q: Queue, st: Stand)
    requires WellRanked(q) && PopOrder(order, q)
    ensures Exact(order, st)
  {
    hide Weight, RankLe, CheckMessage;
    var k := Stop(order, st);
    forall i | k <= i < |order| ensures Future(order[i], st) {
      assert order[k] in q && order[i] in q;
      RankMeansEarliness(order[k], order[i]);
    }
  }

  predicate IsLightest(m: Message, q: Queue) {
    m in q && forall x :: x in q ==> Weight(m) <= Weight(x)
  }

  lemma {:induction false} Lightest(q: Queue) returns (m: Message)
    requires q != multiset{}
    ensures IsLightest(m, q)
    decreases |q|
  {
    hide Weight;
    m :| m in q;
    var rest := q - multiset{m};
    assert forall x :: x in q ==> x == m || x in rest;
    if rest != multiset{} {
      var n := Lightest(rest);
      if Weight(n) < Weight(m) { m := n; }
    }
  }

  lemma {:induction false} SomeOrder(q: Queue) returns (order: seq<Message>)
    ensures PopOrder(order, q)
    decreases |q|
  {
    if q == multiset{} {
      order := [];
    } else {
      var m := Lightest(q);
      var rest := SomeOrder(q - multiset{m});
      order := Ahead(m, rest, q);
    }
  }

  lemma Ahead(m: Message, rest: seq<Message>, q: Queue) returns (order: seq<Message>)
    requires IsLightest(m, q) && PopOrder(rest, q - multiset{m})
    ensures PopOrder(order, q) && order == [m] + rest
  {
    hide Weight;
    order := [m] + rest;
    forall j | 0 <= j < |rest| ensures Weight(m) <= Weight(rest[j]) {
      assert rest[j] in multiset(rest);
    }
  }

  lemma Place(order: seq<Message>, q: Queue, m: Message) returns (k: nat)
    requires PopOrder(order, q) && m in q
    ensures k < |order| && order[k] == m
  {
    assert m in multiset(order);
    k :| 0 <= k < |order| && order[k] == m;
  }

  /** Of two messages, the one that is not heavier can come out first. */
  lemma {:induction false} OrderWith(q: Queue, m: Message, m': Message)
    returns (order: seq<Message>, i: nat, j: nat)
    requires m in q && m' in q && m != m' && Weight(m) <= Weight(m')
    ensures PopOrder(order, q) && i < j < |order| && order[i] == m && order[j] == m'
    decreases |q|
  {
    hide Weight, PopOrder;
    var x := Lightest(q);
    if Weight(m) <= Weight(x) {
      var rest := SomeOrder(q - multiset{m});
      order := Ahead(m, rest, q);
      var k := Place(rest, q - multiset{m}, m');
      i, j := 0, k + 1;
    } else {
      assert x != m && x != m';
      var rest, a, b := OrderWith(q - multiset{x}, m, m');
      order := Ahead(x, rest, q);
      i, j := a + 1, b + 1;
    }
  }

  /** Rounds up to 99 and keys up to 2^24 are enough. */
  lemma InRangeIsWellRanked(q: Queue)
    requires forall m :: m in q ==> InRange(m) && !m.Malformed?
    ensures WellRanked(q)
  {
    forall m, m' | m in q && m' in q && Weight(m) <= Weight(m') ensures RankLe(m, m') {
      WeightRespectsRank(m, m');
    }
  }

  /**
   * Beyond 2^24: a ROUND CHANGE and a PRE-PREPARE of sequence 16778 weigh the same and may come out
   * in the wrong order.
   */
  lemma FloatTieStrandsRoundChange(from: Id, p: Proposal)
    ensures var v := View(16778, 0);
            var pp, rc := PrePrepareMsg(from, v, p), RoundChangeMsg(from, v, NIL_HASH);
            && PopOrder([pp, rc], multiset{pp, rc})
            && !Exact([pp, rc], Stand(v, true, AcceptRequest))
  {
    var v := View(16778, 0);
    var pp, rc := PrePrepareMsg(from, v, p), RoundChangeMsg(from, v, NIL_HASH);
    assert Float32(16778001, 1) == Float32(16778001, 2) == Nearest(16778001, 2) == 16778000;
    assert Float32(16778000, 1) == Float32(16778000, 2) == Nearest(16778000, 2) == 16778000;
    assert !Future(rc, Stand(v, true, AcceptRequest)) && Future(pp, Stand(v, true, AcceptRequest));
    assert [pp, rc][1] == rc;
  }

  /** From round 100 on: the key of a view runs into the next sequence. */
  lemma WideRoundStrandsPrePrepare(from: Id, p: Proposal)
    ensures var rc, pp := RoundChangeMsg(from, View(2, 0), NIL_HASH), PrePrepareMsg(from, View(1, 100), p);
            && PopOrder([rc, pp], multiset{rc, pp})
            && !Exact([rc, pp], Stand(View(1, 100), false, AcceptRequest))
  {
    var rc, pp := RoundChangeMsg(from, View(2, 0), NIL_HASH), PrePrepareMsg(from, View(1, 100), p);
    var st := Stand(View(1, 100), false, AcceptRequest);
    assert Weight(rc) == 2000 && Weight(pp) == 2001;
    assert Future(rc, st) && !Future(pp, st);
    assert [rc, pp][1] == pp;
  }

  // ----- the object -----

  /** What a drained queue splits into. */
  ghost predicate Drained(q: Queue, kept: Queue, posted: Queue, st: Stand) {
    && (forall m :: kept[m] == if Future(m, st) then q[m] else 0)
    && (forall m :: posted[m] == if Check(m, st) == Ok then q[m] else 0)
  }

  /** Nothing is lost or made up on the way, whatever the keys: the rest was old or invalid. */
  ghost predicate Conserved(q: Queue, kept: Queue, posted: Queue, st: Stand) {
    && kept <= q && posted <= q - kept
    && (forall m :: m in posted ==> Check(m, st) == Ok)
    && (forall m :: m in q - kept - posted ==> Check(m, st) == OldMessage || Check(m, st) == InvalidMessage)
    && (kept != multiset{} ==> exists m :: m in kept && Future(m, st))
  }

  method Pop(q: Queue) returns (m: Message)
    requires q != multiset{}
    ensures IsLightest(m, q)
  {
    ghost var least := Lightest(q);
    m :| IsLightest(m, q);
  }

  /** The state of the inner loop: what is still queued, what was posted and what was discarded. */
  ghost predicate Split(q: Queue, kept: Queue, posted: Queue, gone: Queue, st: Stand) {
    && q == kept + posted + gone
    && (forall m :: m in posted ==> Check(m, st) == Ok)
    && (forall m :: m in gone ==> Check(m, st) == OldMessage || Check(m, st) == InvalidMessage)
  }

  lemma SplitStep(q: Queue, kept: Queue, posted: Queue, gone: Queue, st: Stand, m: Message)
    requires Split(q, kept, posted, gone, st) && m in kept
    ensures |kept - multiset{m}| < |kept|
    ensures Check(m, st) == Ok ==> Split(q, kept - multiset{m}, posted + multiset{m}, gone, st)
    ensures Check(m, st) == OldMessage || Check(m, st) == InvalidMessage ==>
              Split(q, kept - multiset{m}, posted, gone + multiset{m}, st)
  {
    hide Check;
    assert kept == kept - multiset{m} + multiset{m};
  }

  lemma SplitConserves(q: Queue, kept: Queue, posted: Queue, gone: Queue, st: Stand)
    requires Split(q, kept, posted, gone, st)
    requires kept != multiset{} ==> exists m :: IsLightest(m, kept) && Future(m, st)
    ensures Conserved(q, kept, posted, st)
  {
    hide Check, Weight;
    assert q - kept - posted == gone;
  }

  lemma SplitDrains(q: Queue, kept: Queue, posted: Queue, gone: Queue, st: Stand)
    requires Split(q, kept, posted, gone, st)
    requires forall m :: m in kept ==> Future(m, st)
    ensures Drained(q, kept, posted, st)
  {
    hide CheckMessage;
  }

  /** The inner loop of ProcessBacklog on the queue of one sender. */
  method Drain(q: Queue, st: Stand) returns (kept: Queue, posted: Queue)
    ensures Conserved(q, kept, posted, st)
    ensures WellRanked(q) ==> Drained(q, kept, posted, st)
  {
    hide CheckMessage, IsLightest, Split, Conserved, Drained, WellRanked;
    kept, posted := q, multiset{};
    ghost var gone: Queue := multiset{};
    SplitStart(q, st);
    var isFuture := false;
    while kept != multiset{} && !isFuture
      invariant Split(q, kept, posted, gone, st)
      invariant isFuture ==> exists m :: IsLightest(m, kept) && Future(m, st)
      decreases !isFuture, |kept|
    {
      var m := Pop(kept);
      assert m in kept;
      SplitStep(q, kept, posted, gone, st, m);
      var rest := kept - multiset{m};
      match Check(m, st) {
        case FutureMessage =>
          isFuture := true;
        case Ok =>
          kept, posted := rest, posted + multiset{m};
        case _ =>
          kept, gone := rest, gone + multiset{m};
      }
    }
    SplitConserves(q, kept, posted, gone, st);
    if WellRanked(q) {
      KeptAreFuture(q, kept, posted, gone, st);
      SplitDrains(q, kept, posted, gone, st);
    }
  }

  lemma SplitStart(q: Queue, st: Stand)
    ensures Split(q, q, multiset{}, multiset{}, st)
  {
  }

  lemma KeptAreFuture(q: Queue, kept: Queue, posted: Queue, gone: Queue, st: Stand)
    requires WellRanked(q) && Split(q, kept, posted, gone, st)
    requires kept != multiset{} ==> exists m :: IsLightest(m, kept) && Future(m, st)
    ensures forall x :: x in kept ==> Future(x, st)
  {
    hide Check, Weight, RankLe;
    forall x | x in kept ensures Future(x, st) {
      var m :| IsLightest(m, kept) && Future(m, st);
      assert m in q && x in q;
      RankMeansEarliness(m, x);
    }
  }

  /** Everything promised of one drained queue. */
  ghost predicate Settled(q: Queue, kept: Queue, posted: Queue, st: Stand) {
    && Conserved(q, kept, posted, st)
    && (WellRanked(q) ==> Drained(q, kept, posted, st))
  }

  ghost predicate Decoded(q: Queue) {
    forall m :: m in q ==> !m.Malformed?
  }

  type Queues = map<Id, Queue>

  class Backlog {
    const peerId: Id
    var queues: Queues

    /** Only messages that decode are ever queued. */
    ghost predicate Valid() reads this {
      forall v :: v in queues ==> Decoded(queues[v])
    }

    constructor (peerId: Id)
      ensures Valid() && queues == map[] && this.peerId == peerId
    {
      this.peerId, queues := peerId, map[];
    }

    /** A node queues nothing of its own. */
    method StoreBacklog(msg: Message, val: Id)
      requires Valid()
      modifies this
      ensures Valid()
      ensures val == peerId ==> queues == old(queues)
      ensures val != peerId ==>
        var q := if val in old(queues) then old(queues)[val] else multiset{};
        queues == old(queues)[val := if msg.Malformed? then q else q + multiset{msg}]
    {
      if val == peerId { return; }
      var backlog: Queue := if val in queues then queues[val] else multiset{};
      if !msg.Malformed? { backlog := backlog + multiset{msg}; }
      queues := queues[val := backlog];
    }

    /**
     * Drains every queue up to its first future message. A well ranked queue ends with exactly its
     * future messages, and exactly the acceptable ones are posted.
     */
    method ProcessBacklog(st: Stand) returns (posted: Queues)
      requires Valid()
      modifies this
      ensures Valid()
      ensures queues.Keys == posted.Keys == old(queues).Keys
      ensures forall v :: v in queues ==> Settled(old(queues)[v], queues[v], posted[v], st)
    {
      hide Settled, Decoded;
      var was, now := queues, queues;
      posted := map[];
      var todo := queues.Keys;
      while todo != {}
        invariant now.Keys == was.Keys == todo + posted.Keys && todo !! posted.Keys
        invariant forall v :: v in now ==> Decoded(now[v])
        invariant forall v :: v in todo ==> now[v] == was[v]
        invariant forall v :: v in posted ==> Settled(was[v], now[v], posted[v], st)
        decreases todo
      {
        var src :| src in todo;
        var kept, out := DrainSender(now[src], st);
        now, posted, todo := now[src := kept], posted[src := out], todo - {src};
      }
      queues := now;
    }
  }

  /** Drain, on a queue of decoded messages. */
  method DrainSender(q: Queue, st: Stand) returns (kept: Queue, posted: Queue)
    requires Decoded(q)
    ensures Settled(q, kept, posted, st) && Decoded(kept)
  {
    hide Drained, WellRanked;
    kept, posted := Drain(q, st);
  }
}
