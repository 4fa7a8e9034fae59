/** The set of messages of one kind, one per sender. */
module MessageSets {
  import opened Protocol
  import opened Selector
  import opened NodeSpec

  /** Messages by sender; only members of the validator set are admitted. */
  class MessageSet {
    const valSet: seq<Id>
    var messages: MessageMap

    /** Every message stands under its own sender. */
    ghost predicate Valid() reads this {
      forall v :: v in messages ==> messages[v].from == v && v in valSet
    }

    constructor (valSet: seq<Id>)
      ensures Valid() && this.valSet == valSet && messages == map[]
    {
      this.valSet := valSet;
      messages := map[];
    }

    method Add(msg: Message) returns (err: Err)
      requires Valid()
      modifies this
      ensures Valid() && messages == AddTo(old(messages), valSet, msg)
      ensures err == if msg.from in valSet then Ok else Unauthorized
    {
      if msg.from !in valSet {
        return Unauthorized;
      }
      messages := messages[msg.from := msg];
      return Ok;
    }

    function Size(): nat reads this { |messages| }

    function Get(val: Id): Option<Message> reads this {
      if val in messages then Some(messages[val]) else None
    }

    /** Every stored message, once, in any order. */
    method Values() returns (result: seq<Message>)
      requires Valid()
      ensures |result| == |messages| && Lists(result, messages)
    {
      result := [];
      var todo := messages.Keys;
      while todo != {}
        invariant todo <= messages.Keys && |result| + |todo| == |messages.Keys|
        invariant forall i :: 0 <= i < |result| ==> InSet(result[i], messages) && result[i].from !in todo
        invariant Distinct(Senders(result))
        decreases todo
      {
        var v :| v in todo;
        assert Senders(result + [messages[v]]) == Senders(result) + [v];
        result, todo := result + [messages[v]], todo - {v};
      }
    }
  }

  ghost predicate InSet(m: Message, ms: MessageMap) {
    m.from in ms && ms[m.from] == m
  }

  ghost function Senders(ms: seq<Message>): (ids: seq<Id>)
    ensures |ids| == |ms| && forall i :: 0 <= i < |ms| ==> ids[i] == ms[i].from
  {
    seq(|ms|, i requires 0 <= i < |ms| => ms[i].from)
  }

  /** The list holds messages of the set, no two of one sender. */
  ghost predicate Lists(list: seq<Message>, ms: MessageMap) {
    Distinct(Senders(list)) && forall i :: 0 <= i < |list| ==> InSet(list[i], ms)
  }
}
