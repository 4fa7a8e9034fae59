/** The wire-level data of the engine: views, phases, proposals, messages, error values. */
module Protocol {

  datatype Option<+T> = None | Some(value: T)

  /** A validator is named by its peer id. The empty id stands for "unknown". */
  type Id = string

  /** A 32-byte hash read as a number; the all-zero hash means "no hash". */
  type Hash = nat

  const NIL_HASH: Hash := 0

  /** The hash of a block is never the zero hash. */
  type BlockHash = h: Hash | h != 0 witness 1

  const TWO_63: nat := 0x8000_0000_0000_0000
  const TWO_64: nat := 0x1_0000_0000_0000_0000

  /** big.Int.Uint64(): the low 64 bits. */
  function Low64(x: nat): (k: nat)
    ensures k < TWO_64
    ensures x < TWO_64 ==> k == x
  {
    x % TWO_64
  }

  /** Go's conversion of a uint64 to an int64. */
  function AsInt64(k: nat): (i: int)
    ensures k < TWO_63 ==> i == k
    ensures TWO_63 <= k < TWO_64 ==> i < 0
  {
    if k < TWO_63 then k else k - TWO_64
  }

  /** A block height together with the number of the attempt at that height. */
  datatype View = View(sequence: nat, round: nat) {

    function Cmp(y: View): (c: int)
      ensures c == 0 <==> this == y
      ensures c < 0 <==> Before(y)
      ensures c > 0 <==> y.Before(this)
    {
      if sequence != y.sequence then (if sequence < y.sequence then -1 else 1)
      else if round != y.round then (if round < y.round then -1 else 1)
      else 0
    }

    ghost predicate Before(y: View) {
      sequence < y.sequence || (sequence == y.sequence && round < y.round)
    }

    ghost predicate AtMost(y: View) {
      this == y || Before(y)
    }
  }

  /** The four values of the consensus state, in the order the code compares them. */
  datatype Phase = AcceptRequest | PrePrepared | Prepared | Committed {
    function Rank(): nat {
      match this
      case AcceptRequest => 0
      case PrePrepared => 1
      case Prepared => 2
      case Committed => 3
    }
  }

  /** A block, reduced to what consensus reads from it. */
  datatype Proposal = Proposal(height: nat, hash: BlockHash)

  datatype PrePrepare = PrePrepare(view: View, proposal: Proposal)

  /** A committed seal: the signature of `signer` over `hash`. */
  datatype Seal = Seal(signer: Id, hash: Hash)

  /** A message and the validator it is attributed to; Malformed is one that does not decode. */
  datatype Message =
    | PrePrepareMsg(from: Id, view: View, proposal: Proposal)
    | PrepareMsg(from: Id, view: View, digest: Hash)
    | CommitMsg(from: Id, view: View, digest: Hash, seal: Option<Seal>)
    | RoundChangeMsg(from: Id, view: View, digest: Hash)
    | Malformed(from: Id)

  datatype Err =
    | Ok
    | InvalidMessage
    | FutureMessage
    | OldMessage
    | Ignored
    | InconsistentSubject
    | NotFromProposer
    | VerifyFailed
    | Unauthorized

  /** checkMessage: how a message of the given kind and view stands to the node's own view and phase. */
  function CheckMessage(m: Message, current: View, waiting: bool, phase: Phase): (r: Err)
    ensures r == Ok || r == FutureMessage || r == OldMessage || r == InvalidMessage
  {
    if m.Malformed? then InvalidMessage
    else if m.RoundChangeMsg? then
      if m.view.sequence > current.sequence then FutureMessage
      else if m.view.Cmp(current) < 0 then OldMessage
      else Ok
    else if m.view.Cmp(current) > 0 then FutureMessage
    else if m.view.Cmp(current) < 0 then OldMessage
    else if waiting then FutureMessage
    else if phase == AcceptRequest && !m.PrePrepareMsg? then FutureMessage
    else Ok
  }
}
