/** Voting snapshots: replay of headers onto a snapshot, and the backward walk that finds one to start from. */
module Snapshots {
  import opened Protocol

  /** A block header, reduced to its links and to whether its consensus data decodes. */
  datatype Header = Header(height: nat, hash: Hash, parentHash: Hash, decodes: bool)

  datatype Failure =
    | Nothing
    | InvalidVotingChain
    | UndecodableConsensus
    | BlockSmall
    | UnknownAncestor
    | GenesisRejected
    | StoreFailed

  ghost predicate Contiguous(headers: seq<Header>) {
    forall i :: 0 <= i < |headers| - 1 ==> headers[i + 1].height == headers[i].height + 1
  }

  ghost predicate AllDecode(headers: seq<Header>) {
    forall i :: 0 <= i < |headers| ==> headers[i].decodes
  }

  class Snapshot {
    var epoch: nat
    var height: nat
    var hash: Hash

    constructor (epoch: nat, height: nat, hash: Hash)
      ensures this.epoch == epoch && this.height == height && this.hash == hash
    {
      this.epoch, this.height, this.hash := epoch, height, hash;
    }

    function Stamped(): Stamp reads this { Stamp(height, hash) }

    /**
     * A new snapshot stamped with the last header, or this one when there is nothing to apply.
     * An epoch of 0 becomes 1 on the receiver, not on the copy.
     */
    method Apply(headers: seq<Header>) returns (r: Snapshot, err: Failure)
      modifies this`epoch
      ensures err == InvalidVotingChain <==> !Continues(height, headers)
      ensures err == UndecodableConsensus <==> Continues(height, headers) && !AllDecode(headers)
      ensures err == Nothing <==> Continues(height, headers) && AllDecode(headers)
      ensures headers == [] ==> r == this && epoch == old(epoch)
      ensures headers != [] && err == Nothing ==>
              && fresh(r) && r.height == headers[|headers| - 1].height && r.hash == headers[|headers| - 1].hash
              && r.epoch == old(epoch)
              && epoch == if old(epoch) == 0 then 1 else old(epoch)
    {
      if |headers| == 0 { return this, Nothing; }
      for i := 0 to |headers| - 1
        invariant forall k :: 0 <= k < i ==> headers[k + 1].height == headers[k].height + 1
      {
        if headers[i + 1].height != headers[i].height + 1 { return this, InvalidVotingChain; }
      }
      if headers[0].height != height + 1 { return this, InvalidVotingChain; }
      r := new Snapshot(epoch, height, hash);
      for i := 0 to |headers|
        invariant forall k :: 0 <= k < i ==> headers[k].decodes
        invariant fresh(r) && r.height == height && r.epoch == old(epoch)
        invariant epoch == if i > 0 && old(epoch) == 0 then 1 else old(epoch)
      {
        if epoch == 0 { epoch := 1; }
        if !headers[i].decodes { return this, UndecodableConsensus; }
      }
      HeightsCount(headers, |headers| - 1);
      r.height := r.height + |headers|;
      r.hash := headers[|headers| - 1].hash;
      return r, Nothing;
    }
  }

  lemma {:induction false} HeightsCount(headers: seq<Header>, k: nat)
    requires Contiguous(headers) && k < |headers|
    ensures headers[k].height == headers[0].height + k
  {
    if k > 0 {
      HeightsCount(headers, k - 1);
      assert headers[k - 1 + 1].height == headers[k - 1].height + 1;
    }
  }

  /** The swap loop over a slice of headers. */
  method ReverseHeaders(a: array<Header>)
    modifies a
    ensures forall k :: 0 <= k < a.Length ==> a[k] == old(a[a.Length - 1 - k])
  {
    var n := a.Length;
    for i := 0 to n / 2
      invariant forall k :: 0 <= k < i ==> a[k] == old(a[n - 1 - k]) && a[n - 1 - k] == old(a[k])
      invariant forall k :: i <= k < n - i ==> a[k] == old(a[k])
    {
      a[i], a[n - 1 - i] := a[n - 1 - i], a[i];
    }
  }

  // ----- the chain -----

  type Reader = (Hash, nat) -> Option<Header>

  /** Hashes determine heights, and above the genesis a header points one height down. */
  ghost predicate Linked(heightOf: Hash -> nat, genesis: Header, x: Header) {
    && heightOf(x.hash) == x.height
    && (x.height > genesis.height ==> heightOf(x.parentHash) == x.height - 1)
  }

  ghost predicate LinkedReader(heightOf: Hash -> nat, genesis: Header, reader: Reader) {
    forall h, n :: reader(h, n).Some? ==>
      var x := reader(h, n).value; x.hash == h && x.height == n && Linked(heightOf, genesis, x)
  }

  ghost predicate UniqueGenesis(heightOf: Hash -> nat, genesis: Header) {
    forall h :: heightOf(h) == genesis.height <==> h == genesis.hash
  }

  ghost predicate Keyed(heightOf: Hash -> nat, stamps: map<Hash, Stamp>) {
    forall h :: h in stamps ==> stamps[h] == Stamp(heightOf(h), h)
  }

  /** A hash-linked chain, and snapshots that stand under their own hash with the height of that hash. */
  ghost predicate World(heightOf: Hash -> nat, known: Known, env: Env, parents: seq<Header>) {
    && UniqueGenesis(heightOf, env.genesis) && LinkedReader(heightOf, env.genesis, env.reader)
    && (forall x :: x in parents ==> Linked(heightOf, env.genesis, x))
    && Keyed(heightOf, known.memory) && Keyed(heightOf, known.disk)
  }

  // ----- the walk on values -----

  datatype Stamp = Stamp(height: nat, hash: Hash)

  /** The snapshots at hand, by hash, reduced to their stamps. */
  datatype Known = Known(memory: map<Hash, Stamp>, disk: map<Hash, Stamp>)

  /** What the engine is told from outside: the blocks, the check of the genesis block, the database's answers. */
  datatype Env = Env(genesis: Header, reader: Reader, genesisOk: bool, storeOk: bool)

  datatype Found = Hit(stamp: Stamp) | Fail(why: Failure) | Miss

  const CHECKPOINT_INTERVAL: nat := 1024

  function Lookup(known: Known, env: Env, height: nat, hash: Hash): Found {
    if hash in known.memory then Hit(known.memory[hash])
    else if height % CHECKPOINT_INTERVAL == 0 && hash in known.disk then Hit(known.disk[hash])
    else if height < env.genesis.height then Fail(BlockSmall)
    else if height > env.genesis.height then Miss
    else if !env.genesisOk then Fail(GenesisRejected)
    else if !env.storeOk then Fail(StoreFailed)
    else Hit(Stamp(env.genesis.height, env.genesis.hash))
  }

  /** The explicit parent if there is one, otherwise the reader's header, of the given hash and height. */
  function Gathered(env: Env, height: nat, hash: Hash, parents: seq<Header>): Option<Header> {
    if parents == [] then env.reader(hash, height)
    else
      var last := parents[|parents| - 1];
      if last.hash == hash && last.height == height then Some(last) else None
  }

  function Fewer(parents: seq<Header>): seq<Header> {
    if parents == [] then [] else parents[..|parents| - 1]
  }

  datatype Walked = Walked(headers: seq<Header>, end: Found)

  /** The headers met on the way down from a block, newest first, and how the way ends. */
  function WalkDown(known: Known, env: Env, height: nat, hash: Hash, parents: seq<Header>): Walked {
    var found := Lookup(known, env, height, hash);
    if found != Miss then Walked([], found)
    else
      var header := Gathered(env, height, hash, parents);
      if header.None? then Walked([], Fail(UnknownAncestor))
      else
        var below := WalkDown(known, env, height - 1, header.value.parentHash, Fewer(parents));
        Walked([header.value] + below.headers, below.end)
  }

  ghost predicate Reverses(up: seq<Header>, headers: seq<Header>) {
    |up| == |headers| && forall k :: 0 <= k < |up| ==> up[k] == headers[|up| - 1 - k]
  }

  /** Whether the headers continue a snapshot of the given height without a gap. */
  ghost predicate Continues(height: nat, headers: seq<Header>) {
    headers != [] ==> Contiguous(headers) && headers[0].height == height + 1
  }

  /** The outcome of replaying `up` on the snapshot where the walk ended. */
  ghost function Replayed(saveOk: bool, end: Found, up: seq<Header>): Found {
    if !end.Hit? || up == [] then end
    else if !Continues(end.stamp.height, up) then Fail(InvalidVotingChain)
    else if !AllDecode(up) then Fail(UndecodableConsensus)
    else
      var last := up[|up| - 1];
      if last.height % CHECKPOINT_INTERVAL == 0 && !saveOk then Fail(StoreFailed)
      else Hit(Stamp(last.height, last.hash))
  }

  // ----- what the walk guarantees -----

  /** The headers of a walk from a block, newest first. */
  ghost predicate Path(headers: seq<Header>, top: nat, topHash: Hash) {
    && (forall k :: 0 <= k < |headers| ==> headers[k].height + k == top)
    && (headers != [] ==> headers[0].hash == topHash)
  }

  lemma {:induction false} WalkIsLinked(
    heightOf: Hash -> nat, known: Known, env: Env, height: nat, hash: Hash, parents: seq<Header>)
    requires World(heightOf, known, env, parents)
    ensures var w := WalkDown(known, env, height, hash, parents);
            && w.end != Miss && w.end != Fail(InvalidVotingChain)
            && Path(w.headers, height, hash)
            && (w.end.Hit? ==> w.end.stamp.height == heightOf(w.end.stamp.hash))
            && (w.headers != [] ==> heightOf(hash) == height)
            && (w.headers != [] && w.end.Hit? ==> w.end.stamp.height + |w.headers| == height)
            && (w.headers == [] && w.end.Hit? ==> (w.end.stamp == Stamp(height, hash) <==> heightOf(hash) == height))
    decreases height
  {
    if Lookup(known, env, height, hash) == Miss {
      var header := Gathered(env, height, hash, parents);
      if header.Some? {
        assert Linked(heightOf, env.genesis, header.value);
        WalkIsLinked(heightOf, known, env, height - 1, header.value.parentHash, Fewer(parents));
      }
    }
  }

  /**
   * On a hash-linked chain the replay never meets a gap, and a snapshot that comes out carries
   * the requested height and hash exactly when the two belong together.
   */
  lemma SnapshotIsStampedAsAsked(
    heightOf: Hash -> nat, known: Known, env: Env, height: nat, hash: Hash, parents: seq<Header>,
    up: seq<Header>, saveOk: bool)
    requires World(heightOf, known, env, parents)
    requires Reverses(up, WalkDown(known, env, height, hash, parents).headers)
    ensures var w := WalkDown(known, env, height, hash, parents);
            var r := Replayed(saveOk, w.end, up);
            && r != Miss && r != Fail(InvalidVotingChain)
            && (r.Hit? ==> (r.stamp == Stamp(height, hash) <==> heightOf(hash) == height))
            && (r.Hit? ==> r.stamp.height == heightOf(r.stamp.hash))
  {
    var w := WalkDown(known, env, height, hash, parents);
    WalkIsLinked(heightOf, known, env, height, hash, parents);
    ReversedPathIsContiguous(w.headers, height, hash, up);
  }

  /** On a linked chain a replay fails exactly on undecodable consensus data or on a checkpoint that is not saved. */
  lemma ReplayFailsExactly(
    heightOf: Hash -> nat, known: Known, env: Env, height: nat, hash: Hash, parents: seq<Header>,
    up: seq<Header>, saveOk: bool)
    requires World(heightOf, known, env, parents)
    requires Reverses(up, WalkDown(known, env, height, hash, parents).headers)
    ensures var end := WalkDown(known, env, height, hash, parents).end;
            end.Hit? ==>
              && (Replayed(saveOk, end, up) == Fail(UndecodableConsensus) <==> !AllDecode(up))
              && (Replayed(saveOk, end, up) == Fail(StoreFailed) <==>
                    up != [] && AllDecode(up) && height % 1024 == 0 && !saveOk)
              && (Replayed(saveOk, end, up).Hit? <==> AllDecode(up) && (up == [] || height % 1024 != 0 || saveOk))
  {
    hide WalkDown;
    var w := WalkDown(known, env, height, hash, parents);
    WalkIsLinked(heightOf, known, env, height, hash, parents);
    ReversedPathIsContiguous(w.headers, height, hash, up);
  }

  lemma ReversedPathIsContiguous(headers: seq<Header>, top: nat, topHash: Hash, up: seq<Header>)
    requires Path(headers, top, topHash) && Reverses(up, headers)
    ensures Contiguous(up)
    ensures up != [] ==> up[0].height + |up| == top + 1 && up[|up| - 1].height == top && up[|up| - 1].hash == topHash
  {
    forall i | 0 <= i < |up| - 1 ensures up[i + 1].height == up[i].height + 1 {
      assert up[i] == headers[|up| - 1 - i] && up[i + 1] == headers[|up| - 1 - (i + 1)];
    }
  }

  /** The reader has the block and its ancestors above the genesis, and all of them decode. */
  ghost predicate CompleteFrom(env: Env, height: nat, hash: Hash) {
    height <= env.genesis.height
    || (env.reader(hash, height).Some?
        && var x := env.reader(hash, height).value;
        x.decodes && CompleteFrom(env, height - 1, x.parentHash))
  }

  lemma {:induction false} WalkArrives(heightOf: Hash -> nat, known: Known, env: Env, height: nat, hash: Hash)
    requires World(heightOf, known, env, []) && heightOf(hash) == height >= env.genesis.height
    ensures var w := WalkDown(known, env, height, hash, []);
            CompleteFrom(env, height, hash) && env.genesisOk && env.storeOk ==> w.end.Hit? && AllDecode(w.headers)
    ensures var w := WalkDown(known, env, height, hash, []);
            known == Known(map[], map[]) && w.end.Hit? && AllDecode(w.headers) ==>
              CompleteFrom(env, height, hash) && env.genesisOk && env.storeOk
    decreases height
  {
    hide WalkDown;
    WalkUnfolds(known, env, height, hash, []);
    if Lookup(known, env, height, hash) == Miss {
      var header := Gathered(env, height, hash, []);
      if header.Some? {
        assert Linked(heightOf, env.genesis, header.value);
        WalkArrives(heightOf, known, env, height - 1, header.value.parentHash);
        var below := WalkDown(known, env, height - 1, header.value.parentHash, []);
        assert AllDecode([header.value] + below.headers) <==> header.value.decodes && AllDecode(below.headers) by {
          DecodeOneMore(header.value, below.headers);
        }
      }
    }
  }

  lemma DecodeOneMore(x: Header, headers: seq<Header>)
    ensures AllDecode([x] + headers) <==> x.decodes && AllDecode(headers)
  {
    var all := [x] + headers;
    if AllDecode(all) {
      forall i | 0 <= i < |headers| ensures headers[i].decodes { assert all[i + 1] == headers[i]; }
      assert all[0] == x;
    }
  }

  lemma DecodeReversed(up: seq<Header>, headers: seq<Header>)
    requires Reverses(up, headers)
    ensures AllDecode(up) <==> AllDecode(headers)
  {
    if AllDecode(up) {
      forall i | 0 <= i < |headers| ensures headers[i].decodes { assert up[|up| - 1 - i] == headers[i]; }
    }
  }

  /**
   * A block of a chain whose ancestors the reader has gets its snapshot, whatever is cached; with
   * nothing cached there is no other way to get it.
   */
  lemma SnapshotIsFound(
    heightOf: Hash -> nat, known: Known, env: Env, height: nat, hash: Hash, up: seq<Header>)
    requires World(heightOf, known, env, []) && heightOf(hash) == height >= env.genesis.height
    requires Reverses(up, WalkDown(known, env, height, hash, []).headers)
    ensures var r := Replayed(true, WalkDown(known, env, height, hash, []).end, up);
            && (CompleteFrom(env, height, hash) && env.genesisOk && env.storeOk ==> r == Hit(Stamp(height, hash)))
            && (known == Known(map[], map[]) ==>
                  (r == Hit(Stamp(height, hash)) <==> CompleteFrom(env, height, hash) && env.genesisOk && env.storeOk))
  {
    hide WalkDown, World, CompleteFrom;
    var w := WalkDown(known, env, height, hash, []);
    WalkArrives(heightOf, known, env, height, hash);
    DecodeReversed(up, w.headers);
    SnapshotIsStampedAsAsked(heightOf, known, env, height, hash, [], up, true);
  }

  /**
   * When a request whose height is not that of its hash is answered all the same: from the cache,
   * from a stored checkpoint, or with the genesis snapshot.
   */
  lemma MismatchIsAnsweredExactly(
    heightOf: Hash -> nat, known: Known, env: Env, height: nat, hash: Hash, parents: seq<Header>,
    up: seq<Header>, saveOk: bool)
    requires World(heightOf, known, env, parents) && heightOf(hash) != height
    requires Reverses(up, WalkDown(known, env, height, hash, parents).headers)
    ensures Replayed(saveOk, WalkDown(known, env, height, hash, parents).end, up).Hit? <==>
            || hash in known.memory
            || (height % 1024 == 0 && hash in known.disk)
            || (height == env.genesis.height && env.genesisOk && env.storeOk)
  {
    hide WalkDown;
    WalkUnfolds(known, env, height, hash, parents);
    GatheredMatches(heightOf, known, env, height, hash, parents);
  }

  lemma GatheredMatches(heightOf: Hash -> nat, known: Known, env: Env, height: nat, hash: Hash, parents: seq<Header>)
    requires World(heightOf, known, env, parents)
    ensures Gathered(env, height, hash, parents).Some? ==> heightOf(hash) == height
  {
    var header := Gathered(env, height, hash, parents);
    assert header.Some? ==> Linked(heightOf, env.genesis, header.value);
  }

  /** A chain of which block 7 of height 5 is cached answers a request for block 7 at height 3. */
  lemma MismatchIsAnswered()
    ensures var heightOf := (h: Hash) => if h == 1 then 0 else 5;
            var known := Known(map[7 := Stamp(5, 7)], map[]);
            var env := Env(Header(0, 1, 0, true), (h: Hash, n: nat) => None, true, true);
            && World(heightOf, known, env, []) && heightOf(7) != 3
            && Replayed(true, WalkDown(known, env, 3, 7, []).end, []) == Hit(Stamp(5, 7))
  {
  }

  // ----- the object -----

  class Engine {
    const epoch: nat
    var recent: map<Hash, Snapshot>
    var disk: map<Hash, Stamp>

    constructor (epoch: nat)
      ensures recent == map[] && disk == map[] && this.epoch == epoch
    {
      this.epoch, recent, disk := epoch, map[], map[];
    }

    ghost function Cached(): set<Snapshot> reads this { recent.Values }

    ghost function AtHand(): Known
      reads this, Cached()
    {
      Known(map h | h in recent :: recent[h].Stamped(), disk)
    }

    /** The answer a search result stands for; Miss is no snapshot and no error. */
    static ghost predicate Answers(f: Found, snap: Option<Snapshot>, err: Failure)
      reads if snap.Some? then {snap.value} else {}
    {
      match f
      case Hit(stamp) => snap.Some? && err == Nothing && snap.value.Stamped() == stamp
      case Fail(why) => snap.None? && err == why && err != Nothing
      case Miss => snap.None? && err == Nothing
    }

    /** The search ends at the genesis block, whose snapshot is made and stored. */
    static ghost predicate MakesGenesis(known: Known, env: Env, height: nat, hash: Hash) {
      && hash !in known.memory && !(height % 1024 == 0 && hash in known.disk)
      && height == env.genesis.height && env.genesisOk && env.storeOk
    }

    /** A snapshot from memory, from disk at a checkpoint, or made from the genesis block and stored. */
    method Find(env: Env, height: nat, hash: Hash) returns (snap: Option<Snapshot>, err: Failure)
      modifies this`disk
      ensures Answers(Lookup(old(AtHand()), env, height, hash), snap, err)
      ensures snap.Some? ==> snap.value in Cached() || fresh(snap.value)
      ensures disk == if MakesGenesis(old(AtHand()), env, height, hash)
                      then old(disk)[env.genesis.hash := Stamp(env.genesis.height, env.genesis.hash)] else old(disk)
      ensures snap.None? ==> disk == old(disk)
    {
      if hash in recent { return Some(recent[hash]), Nothing; }
      if height % CHECKPOINT_INTERVAL == 0 && hash in disk {
        var loaded := new Snapshot(epoch, disk[hash].height, disk[hash].hash);
        return Some(loaded), Nothing;
      }
      if height < env.genesis.height { return None, BlockSmall; }
      if height == env.genesis.height {
        if !env.genesisOk { return None, GenesisRejected; }
        var made := new Snapshot(epoch, env.genesis.height, env.genesis.hash);
        if !env.storeOk { return None, StoreFailed; }
        disk := disk[made.hash := Stamp(made.height, made.hash)];
        return Some(made), Nothing;
      }
      return None, Nothing;
    }

    /** Walks down from the requested block to a snapshot, gathering the headers on the way. */
    method Walk(env: Env, height: nat, hash: Hash, parents: seq<Header>)
      returns (found: Option<Snapshot>, headers: seq<Header>, err: Failure)
      modifies this`disk
      ensures var w := WalkDown(old(AtHand()), env, height, hash, parents);
              Answers(w.end, found, err) && (found.Some? ==> headers == w.headers)
      ensures found.Some? ==> found.value in Cached() || fresh(found.value)
      ensures Extends(old(AtHand()), AtHand(), Stamp(env.genesis.height, env.genesis.hash))
    {
      hide WalkDown, Lookup, Gathered, Fewer, MakesGenesis, Extends;
      ghost var known := AtHand();
      headers := [];
      var h, x, rest := height, hash, parents;
      found, err := Find(env, h, x);
      while found.None? && err == Nothing
        invariant var w, below := WalkDown(known, env, height, hash, parents), WalkDown(known, env, h, x, rest);
                  w.headers == headers + below.headers && w.end == below.end
        invariant Answers(Lookup(known, env, h, x), found, err)
        invariant found.Some? ==> found.value in Cached() || fresh(found.value)
        invariant recent == old(recent)
        invariant disk == old(disk)
                  || disk == old(disk)[env.genesis.hash := Stamp(env.genesis.height, env.genesis.hash)]
        invariant found.None? ==> AtHand() == known
        decreases h
      {
        WalkUnfolds(known, env, h, x, rest);
        var header, fewer := Gather(env, h, x, rest);
        if header.None? {
          OnlyDiskExtends(known, AtHand(), Stamp(env.genesis.height, env.genesis.hash));
          return None, headers, UnknownAncestor;
        }
        headers := headers + [header.value];
        h, x, rest := h - 1, header.value.parentHash, fewer;
        assert AtHand() == known;
        found, err := Find(env, h, x);
      }
      WalkUnfolds(known, env, h, x, rest);
      OnlyDiskExtends(known, AtHand(), Stamp(env.genesis.height, env.genesis.hash));
    }

    /** Replays the headers on a snapshot, caches the result and saves it at a checkpoint. */
    method Replay(found: Snapshot, up: seq<Header>, saveOk: bool) returns (snap: Option<Snapshot>, err: Failure)
      modifies this, found`epoch
      ensures Answers(Replayed(saveOk, Hit(old(found.Stamped())), up), snap, err)
      ensures snap.Some? ==> snap.value.hash in recent && recent[snap.value.hash] == snap.value
      ensures Extends(old(AtHand()), AtHand(), Newest(old(found.Stamped()), up))
      ensures disk == if snap.Some? && up != [] && snap.value.height % 1024 == 0
                      then old(disk)[snap.value.hash := snap.value.Stamped()] else old(disk)
    {
      var applied, failure := found.Apply(up);
      if failure != Nothing { return None, failure; }
      assert applied.Stamped() == Newest(old(found.Stamped()), up);
      var evicted: set<Hash> := *;
      recent := (recent - evicted)[applied.hash := applied];
      if applied.height % CHECKPOINT_INTERVAL == 0 && |up| > 0 {
        if !saveOk { return None, StoreFailed; }
        disk := disk[applied.hash := Stamp(applied.height, applied.hash)];
      }
      return Some(applied), Nothing;
    }

    /**
     * The snapshot after the block of the given height and hash, by replay onto the nearest one
     * at hand. On a linked chain, snapshots at hand stay under their own hash.
     */
    method SnapshotAt(
      env: Env, height: nat, hash: Hash, parents: seq<Header>, saveOk: bool, ghost heightOf: Hash -> nat)
      returns (snap: Option<Snapshot>, err: Failure, ghost up: seq<Header>)
      modifies this, Cached()`epoch
      ensures var w := WalkDown(old(AtHand()), env, height, hash, parents);
              (w.end.Hit? ==> Reverses(up, w.headers)) && Answers(Replayed(saveOk, w.end, up), snap, err)
      ensures snap.Some? ==> snap.value.hash in recent && recent[snap.value.hash] == snap.value
      ensures snap.Some? && up != [] && snap.value.height % 1024 == 0 ==>
              snap.value.hash in disk && disk[snap.value.hash] == snap.value.Stamped()
      ensures World(heightOf, old(AtHand()), env, parents) ==> World(heightOf, AtHand(), env, parents)
    {
      hide WalkDown, Lookup, World, Extends, Newest, Reverses;
      ghost var known := AtHand();
      WalkEnds(known, env, height, hash, parents);
      var found, headers, problem := Walk(env, height, hash, parents);
      ghost var mid := AtHand();
      if World(heightOf, known, env, parents) { GenesisKeepsWorld(heightOf, known, mid, env, parents); }
      if problem != Nothing { return None, problem, []; }
      var ups := Upward(headers);
      up := ups;
      snap, err := Replay(found.value, ups, saveOk);
      if World(heightOf, known, env, parents) {
        WalkKeepsWorld(heightOf, known, mid, AtHand(), env, height, hash, parents, up);
      }
    }
  }

  /** The stamp of the snapshot after the headers. */
  function Newest(stamp: Stamp, up: seq<Header>): Stamp {
    if up == [] then stamp else Stamp(up[|up| - 1].height, up[|up| - 1].hash)
  }

  /** One snapshot may have been added under its own hash; only the cache may lose others. */
  ghost predicate Extends(known: Known, known': Known, s: Stamp) {
    && (forall h :: h in known'.memory ==>
          (h in known.memory && known'.memory[h] == known.memory[h]) || (h == s.hash && known'.memory[h] == s))
    && (known'.disk == known.disk || known'.disk == known.disk[s.hash := s])
  }

  lemma OnlyDiskExtends(known: Known, known': Known, s: Stamp)
    requires known'.memory == known.memory
    requires known'.disk == known.disk || known'.disk == known.disk[s.hash := s]
    ensures Extends(known, known', s)
  {
  }

  lemma GenesisKeepsWorld(heightOf: Hash -> nat, known: Known, mid: Known, env: Env, parents: seq<Header>)
    requires World(heightOf, known, env, parents)
    requires Extends(known, mid, Stamp(env.genesis.height, env.genesis.hash))
    ensures World(heightOf, mid, env, parents)
  {
  }

  lemma WalkKeepsWorld(heightOf: Hash -> nat, known: Known, mid: Known, known': Known, env: Env,
                       height: nat, hash: Hash, parents: seq<Header>, up: seq<Header>)
    requires World(heightOf, known, env, parents) && World(heightOf, mid, env, parents)
    requires var w := WalkDown(known, env, height, hash, parents);
             w.end.Hit? && Reverses(up, w.headers) && Extends(mid, known', Newest(w.end.stamp, up))
    ensures World(heightOf, known', env, parents)
  {
    hide WalkDown;
    var w := WalkDown(known, env, height, hash, parents);
    WalkIsLinked(heightOf, known, env, height, hash, parents);
    ReversedPathIsContiguous(w.headers, height, hash, up);
  }

  method Gather(env: Env, height: nat, hash: Hash, parents: seq<Header>)
    returns (header: Option<Header>, rest: seq<Header>)
    ensures header == Gathered(env, height, hash, parents)
    ensures rest == Fewer(parents)
  {
    if |parents| > 0 {
      var last := parents[|parents| - 1];
      rest := parents[..|parents| - 1];
      header := if last.hash != hash || last.height != height then None else Some(last);
    } else {
      header, rest := env.reader(hash, height), [];
    }
  }

  lemma WalkUnfolds(known: Known, env: Env, h: nat, x: Hash, rest: seq<Header>)
    ensures var w := WalkDown(known, env, h, x, rest);
            if Lookup(known, env, h, x) != Miss then w == Walked([], Lookup(known, env, h, x))
            else
              && h > 0
              && var header := Gathered(env, h, x, rest);
              if header.None? then w == Walked([], Fail(UnknownAncestor))
              else
                var below := WalkDown(known, env, h - 1, header.value.parentHash, Fewer(rest));
                w == Walked([header.value] + below.headers, below.end)
  {
  }

  lemma {:induction false} WalkEnds(known: Known, env: Env, h: nat, x: Hash, rest: seq<Header>)
    ensures WalkDown(known, env, h, x, rest).end != Miss
    decreases h
  {
    WalkUnfolds(known, env, h, x, rest);
    if Lookup(known, env, h, x) == Miss && Gathered(env, h, x, rest).Some? {
      WalkEnds(known, env, h - 1, Gathered(env, h, x, rest).value.parentHash, Fewer(rest));
    }
  }

  /** The gathered headers, oldest first. */
  method Upward(headers: seq<Header>) returns (up: seq<Header>)
    ensures Reverses(up, headers)
  {
    var a := new Header[|headers|](i requires 0 <= i < |headers| => headers[i]);
    ReverseHeaders(a);
    up := a[..];
  }
}
