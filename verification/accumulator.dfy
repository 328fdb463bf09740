/** The per-message callback of the aggregation consumer
    (`process_and_accumulate_message`), as a pure step on the consumer's
    state, and the runs of that step over any delivery sequence.

    The callbacks are treated as atomic and sequential; the UTF-8 decoder
    and the JSON parser are abstract (fields of a `Decoder`), and a JSON
    value is any value of the type parameter `J`. */
module Accumulator {
  import opened Common

  type MsgId = string

  /** One delivered message: the broker's identifier and the raw payload. */
  datatype Message = Message(id: MsgId, data: Payload)

  /** The two library decoders the callback chains: bytes to text, then
      text to a JSON value. `None` stands for the library raising. */
  datatype Decoder<J> = Decoder(utf8: Payload -> Option<string>, loads: string -> Option<J>)

  /** What decoding a payload yields: a value, a JSON syntax error (the
      `JSONDecodeError` handler), or a failure before parsing (the generic
      exception handler). */
  datatype Decoded<J> = Value(value: J) | NotJson | NotText

  function Decode<J>(dec: Decoder<J>, data: Payload): Decoded<J> {
    match dec.utf8(data)
    case None => NotText
    case Some(text) =>
      match dec.loads(text)
      case None => NotJson
      case Some(v) => Value(v)
  }

  /** The consumer's mutable state: the accumulated values in arrival
      order, the multiset of acknowledged message ids, and the completion
      flag. */
  datatype State<J> = State(accumulated: seq<J>, acked: multiset<MsgId>, done: bool)

  /** The state before any message arrives. */
  function Init<J>(): State<J> {
    State([], multiset{}, false)
  }

  /** One callback invocation. The message is acknowledged on every path;
      a decoded value is appended and the flag set once the list reaches
      the target; a failure changes nothing else. */
  function Step<J>(dec: Decoder<J>, target: int, s: State<J>, m: Message): (r: State<J>)
    ensures r.acked == s.acked + multiset{m.id}
    ensures s.done ==> r.done
    ensures Decode(dec, m.data).Value? ==>
              && r.accumulated == s.accumulated + [Decode(dec, m.data).value]
              && (r.done <==> s.done || |r.accumulated| >= target)
    ensures !Decode(dec, m.data).Value? ==>
              r.accumulated == s.accumulated && r.done == s.done
  {
    var acked := s.acked + multiset{m.id};
    match Decode(dec, m.data)
    case Value(v) =>
      var list := s.accumulated + [v];
      State(list, acked, s.done || |list| >= target)
    case NotJson => s.(acked := acked)
    case NotText => s.(acked := acked)
  }

  /** The callbacks for `msgs`, one after the other, from state `s`. */
  function Run<J>(dec: Decoder<J>, target: int, s: State<J>, msgs: seq<Message>): State<J>
    decreases |msgs|
  {
    if msgs == [] then s else Run(dec, target, Step(dec, target, s, msgs[0]), msgs[1..])
  }

  /** Reference definition: the decoded values of the messages that decode,
      in delivery order. */
  function Successes<J>(dec: Decoder<J>, msgs: seq<Message>): seq<J>
    decreases |msgs|
  {
    if msgs == [] then []
    else
      var rest := Successes(dec, msgs[1..]);
      match Decode(dec, msgs[0].data)
      case Value(v) => [v] + rest
      case NotJson => rest
      case NotText => rest
  }

  /** The ids of the messages, in delivery order. */
  function Ids(msgs: seq<Message>): seq<MsgId> {
    seq(|msgs|, i requires 0 <= i < |msgs| => msgs[i].id)
  }

  /** The flag agrees with the list length: set exactly when the list has
      reached the target. */
  ghost predicate Consistent<J>(target: int, s: State<J>) {
    s.done <==> |s.accumulated| >= target
  }

  /** Running two delivery sequences back to back is running their
      concatenation. */
  lemma {:induction false} RunAppend<J>(dec: Decoder<J>, target: int, s: State<J>, a: seq<Message>, b: seq<Message>)
    ensures Run(dec, target, s, a + b) == Run(dec, target, Run(dec, target, s, a), b)
    decreases |a|
  {
    if a != [] {
      assert (a + b)[0] == a[0];
      assert (a + b)[1..] == a[1..] + b;
      RunAppend(dec, target, Step(dec, target, s, a[0]), a[1..], b);
    } else {
      assert a + b == b;
    }
  }

  /** The list after any run is the list before it followed by exactly the
      values that decoded, in arrival order; the target does not cap it. */
  lemma {:induction false} RunAccumulates<J>(dec: Decoder<J>, target: int, s: State<J>, msgs: seq<Message>)
    ensures Run(dec, target, s, msgs).accumulated == s.accumulated + Successes(dec, msgs)
    decreases |msgs|
  {
    if msgs != [] {
      var s' := Step(dec, target, s, msgs[0]);
      RunAccumulates(dec, target, s', msgs[1..]);
    }
  }

  /** The successes of a concatenation are the successes of each part. */
  lemma {:induction false} SuccessesAppend<J>(dec: Decoder<J>, a: seq<Message>, b: seq<Message>)
    ensures Successes(dec, a + b) == Successes(dec, a) + Successes(dec, b)
    decreases |a|
  {
    if a == [] {
      assert a + b == b;
    } else {
      assert (a + b)[0] == a[0];
      assert (a + b)[1..] == a[1..] + b;
      SuccessesAppend(dec, a[1..], b);
    }
  }

  /** Every delivered message is acknowledged, once per delivery. */
  lemma {:induction false} RunAcknowledgesAll<J>(dec: Decoder<J>, target: int, s: State<J>, msgs: seq<Message>)
    ensures Run(dec, target, s, msgs).acked == s.acked + multiset(Ids(msgs))
    decreases |msgs|
  {
    if msgs != [] {
      var s' := Step(dec, target, s, msgs[0]);
      RunAcknowledgesAll(dec, target, s', msgs[1..]);
      assert Ids(msgs) == [msgs[0].id] + Ids(msgs[1..]);
      assert multiset(Ids(msgs)) == multiset{msgs[0].id} + multiset(Ids(msgs[1..]));
    }
  }

  /** Once set, the completion flag is never cleared. */
  lemma {:induction false} RunNeverClears<J>(dec: Decoder<J>, target: int, s: State<J>, msgs: seq<Message>)
    requires s.done
    ensures Run(dec, target, s, msgs).done
    decreases |msgs|
  {
    if msgs != [] {
      RunNeverClears(dec, target, Step(dec, target, s, msgs[0]), msgs[1..]);
    }
  }

  /** Every run keeps the flag in agreement with the list length. */
  lemma {:induction false} RunKeepsConsistent<J>(dec: Decoder<J>, target: int, s: State<J>, msgs: seq<Message>)
    requires Consistent(target, s)
    ensures Consistent(target, Run(dec, target, s, msgs))
    decreases |msgs|
  {
    if msgs != [] {
      RunKeepsConsistent(dec, target, Step(dec, target, s, msgs[0]), msgs[1..]);
    }
  }

  /** From the initial state with a positive target, the flag is set after
      a run exactly when at least `target` messages decoded. */
  lemma DoneExactlyWhenTargetReached<J>(dec: Decoder<J>, target: int, msgs: seq<Message>)
    requires target >= 1
    ensures Run(dec, target, Init(), msgs).done <==> |Successes(dec, msgs)| >= target
  {
    RunKeepsConsistent(dec, target, Init(), msgs);
    RunAccumulates(dec, target, Init(), msgs);
  }

  /** A run over messages none of which decodes leaves the list and the
      flag as they were. */
  lemma {:induction false} FailuresChangeNothing<J>(dec: Decoder<J>, target: int, s: State<J>, msgs: seq<Message>)
    requires Successes(dec, msgs) == []
    ensures Run(dec, target, s, msgs).accumulated == s.accumulated
    ensures Run(dec, target, s, msgs).done == s.done
    decreases |msgs|
  {
    if msgs != [] {
      assert !Decode(dec, msgs[0].data).Value?;
      FailuresChangeNothing(dec, target, Step(dec, target, s, msgs[0]), msgs[1..]);
    }
  }

  /** The list only grows: the list after any prefix of a delivery sequence
      is a prefix of the list after the whole sequence. */
  lemma ListOnlyGrows<J>(dec: Decoder<J>, target: int, s: State<J>, msgs: seq<Message>, k: nat)
    requires k <= |msgs|
    ensures Run(dec, target, s, msgs[..k]).accumulated <= Run(dec, target, s, msgs).accumulated
  {
    assert msgs == msgs[..k] + msgs[k..];
    RunAppend(dec, target, s, msgs[..k], msgs[k..]);
    var mid := Run(dec, target, s, msgs[..k]);
    RunAccumulates(dec, target, mid, msgs[k..]);
  }

  /** How many callbacks of a run turn the flag from unset to set. */
  function Crossings<J>(dec: Decoder<J>, target: int, s: State<J>, msgs: seq<Message>): nat
    decreases |msgs|
  {
    if msgs == [] then 0
    else
      var s' := Step(dec, target, s, msgs[0]);
      (if !s.done && s'.done then 1 else 0) + Crossings(dec, target, s', msgs[1..])
  }

  /** From a consistent state, the flag goes from unset to set at most once,
      and exactly once when the run brings the list to the target. */
  lemma {:induction false} CrossesAtMostOnce<J>(dec: Decoder<J>, target: int, s: State<J>, msgs: seq<Message>)
    requires Consistent(target, s)
    ensures Crossings(dec, target, s, msgs)
              == if !s.done && |s.accumulated| + |Successes(dec, msgs)| >= target then 1 else 0
    decreases |msgs|
  {
    if msgs != [] {
      var s' := Step(dec, target, s, msgs[0]);
      CrossesAtMostOnce(dec, target, s', msgs[1..]);
      if s'.done {
        RunNeverClears(dec, target, s', msgs[1..]);
      }
    }
  }

  /** From the initial state with a positive target, the completion signal
      fires exactly once if at least `target` messages decode, else never. */
  lemma CompletionSignalledOnce<J>(dec: Decoder<J>, target: int, msgs: seq<Message>)
    requires target >= 1
    ensures Crossings(dec, target, Init(), msgs) == if |Successes(dec, msgs)| >= target then 1 else 0
  {
    CrossesAtMostOnce(dec, target, Init(), msgs);
  }
}
