/** The message pipeline of one worker (`rust/src/main.rs`, the closure passed
    to `try_for_each` in `run_async_processor`).

    Each consumed message is handled in turn: its payload is taken and
    decoded as UTF-8, its topic is resolved, the request is parsed and
    evaluated, and one response record is sent to the topic's output topic.
    Every `expect` along the way panics, which ends the worker; a failed send
    is only reported and the worker goes on with the next message. Nothing
    is committed: auto-commit is off and the handler never commits.

    The foreign parts are parameters: `Codec` holds UTF-8 decoding
    (`std::str::from_utf8`) and JSON deserialisation (`serde_json`), and each
    consumed message carries the broker's verdict on the send made while
    handling it. Sending is modelled as appending a record to the sent log.
 */
module Processor {
  import opened Prelude
  import Op = Operations
  import opened Kafka

  /** A message as the consumer yields it: the topic it was read from and its
      payload, if it has one. */
  datatype Message = Message(topic: string, payload: Option<seq<Byte>>)

  /** The decoders the handler calls and this model does not contain. */
  datatype Codec = Codec(utf8: seq<Byte> -> Option<string>, json: string -> Option<PayloadRequest>)

  /** The broker's answer to one `send`. */
  datatype Delivery = Delivered | DeliveryFailed

  /** One record handed to the producer: the target topic, the response it
      carries, and what the handler printed about its delivery. */
  datatype SentRecord = SentRecord(topic: string, response: PayloadResponse, report: Delivery)

  /** One item of the consumer's stream: a message (with the verdict on the
      send its handling makes), or an error from the consumer itself. */
  datatype Event = Consumed(msg: Message, verdict: Delivery) | ConsumerError

  /** How a worker's run over a finite stream ended: the stream ran out, a
      handler panicked, or the consumer reported an error (which makes
      `try_for_each` stop and the `expect` after it panic). */
  datatype End = Exhausted | Panicked(cause: Panic) | StreamFailed

  /** What a worker did: the records it sent, in order, and how it ended. */
  datatype Trace = Trace(sent: seq<SentRecord>, end: End)

  /** The payload text, when there is a payload and it is valid UTF-8. */
  function Text(msg: Message, codec: Codec): Option<string>
  {
    match msg.payload
    case None => None
    case Some(bytes) => codec.utf8(bytes)
  }

  /** The decoded request payload, when the text deserialises. */
  function Decoded(msg: Message, codec: Codec): Option<PayloadRequest>
  {
    match Text(msg, codec)
    case None => None
    case Some(json) => codec.json(json)
  }

  /** A message the handler gets through without panicking: it has a UTF-8
      payload, a known topic, and a payload that decodes with at least two
      operands. */
  predicate Accepted(msg: Message, codec: Codec)
  {
    && Text(msg, codec).Some?
    && FromStr(msg.topic).Ok?
    && Decoded(msg, codec).Some?
    && |Decoded(msg, codec).value.operands| >= 2
  }

  /** The handler for one message. It either panics, in the order of the
      checks in the source and before anything is sent, or sends exactly one
      record: to the output topic of the message's topic, carrying the
      payload's id unchanged and the first operand minus the second. The
      delivery verdict is only reported; it does not change the outcome. */
  function Handle(msg: Message, verdict: Delivery, codec: Codec): (r: Outcome<SentRecord>)
    ensures r.Done? <==> Accepted(msg, codec)
    ensures r.Done? ==>
              var p := Decoded(msg, codec).value;
              && r.value.topic == OutputTopic(FromStr(msg.topic).value)
              && r.value.response.id == p.id
              && r.value.response.result == Op.Eval(Op.Minus(p.operands[0], p.operands[1]))
              && r.value.response.result + p.operands[1] == p.operands[0]
              && r.value.report == verdict
    ensures msg.payload.None? ==> r == Abort(NoPayload)
    ensures msg.payload.Some? && Text(msg, codec).None? ==> r == Abort(NotUtf8)
    ensures Text(msg, codec).Some? && FromStr(msg.topic).Err? ==>
              r == Abort(UnknownTopic(FromStr(msg.topic).error))
    ensures Text(msg, codec).Some? && FromStr(msg.topic).Ok? && Decoded(msg, codec).None? ==>
              r == Abort(DeserializeFailed)
    ensures Text(msg, codec).Some? && FromStr(msg.topic).Ok? && Decoded(msg, codec).Some? ==>
              var n := |Decoded(msg, codec).value.operands|;
              n < 2 ==> r == Abort(IndexOutOfBounds(n, n))
  {
    match msg.payload
    case None => Abort(NoPayload)
    case Some(bytes) =>
      match codec.utf8(bytes)
      case None => Abort(NotUtf8)
      case Some(json) =>
        match FromStr(msg.topic)
        case Err(e) => Abort(UnknownTopic(e))
        case Ok(topic) =>
          match ParseRequest(topic, json, codec.json)
          case Abort(cause) => Abort(cause)
          case Done(None) => Abort(ParseFailed)
          case Done(Some(request)) =>
            var res := Op.Eval(request.op);
            var response := PayloadResponse(request.id, res);
            Done(SentRecord(OutputTopic(topic), response, verdict))
  }

  /** `try_for_each` over a finite prefix of the consumer's stream. Messages
      are handled one after another; the i-th record sent is the one the i-th
      message's handler sends. The run stops at the first event that panics
      or is a consumer error, having sent a record for every message before
      it and none for it; otherwise every event has been handled. */
  function Run(events: seq<Event>, codec: Codec): (t: Trace)
    ensures |t.sent| <= |events|
    ensures t.end.Exhausted? <==> |t.sent| == |events|
    ensures forall i {:trigger t.sent[i]} :: 0 <= i < |t.sent| ==>
              events[i].Consumed? && Handle(events[i].msg, events[i].verdict, codec) == Done(t.sent[i])
    ensures t.end.StreamFailed? ==> events[|t.sent|].ConsumerError?
    ensures t.end.Panicked? ==>
              && events[|t.sent|].Consumed?
              && Handle(events[|t.sent|].msg, events[|t.sent|].verdict, codec) == Abort(t.end.cause)
    decreases |events|
  {
    if |events| == 0 then Trace([], Exhausted)
    else
      match events[0]
      case ConsumerError => Trace([], StreamFailed)
      case Consumed(msg, verdict) =>
        match Handle(msg, verdict, codec)
        case Abort(cause) => Trace([], Panicked(cause))
        case Done(record) =>
          var rest := Run(events[1..], codec);
          assert forall i :: 1 <= i < |events| ==> events[1..][i - 1] == events[i];
          assert forall i :: 1 <= i < 1 + |rest.sent| ==> ([record] + rest.sent)[i] == rest.sent[i - 1];
          Trace([record] + rest.sent, rest.end)
  }

  /** The worker's loop, written as the loop it is: handle events in order
      until one stops the run. It computes exactly `Run`. */
  method Process(events: seq<Event>, codec: Codec) returns (sent: seq<SentRecord>, end: End)
    ensures Trace(sent, end) == Run(events, codec)
  {
    sent := [];
    var i := 0;
    while i < |events|
      invariant 0 <= i <= |events|
      invariant Run(events, codec) == Trace(sent + Run(events[i..], codec).sent, Run(events[i..], codec).end)
      decreases |events| - i
    {
      assert events[i..][0] == events[i];
      assert events[i..][1..] == events[i + 1..];
      match events[i]
      case ConsumerError =>
        assert sent + [] == sent;
        return sent, StreamFailed;
      case Consumed(msg, verdict) =>
        match Handle(msg, verdict, codec)
        case Abort(cause) =>
          assert sent + [] == sent;
          return sent, Panicked(cause);
        case Done(record) =>
          assert sent + ([record] + Run(events[i + 1..], codec).sent) == (sent + [record]) + Run(events[i + 1..], codec).sent;
          sent := sent + [record];
      i := i + 1;
    }
    assert events[i..] == [];
    assert sent + [] == sent;
    end := Exhausted;
  }

  /** Handling is sequential: running over `a + b` is running over `a` and,
      if that got through every event of `a`, going on with `b`, the records
      of `b` following those of `a`. */
  lemma {:induction false} RunAppend(a: seq<Event>, b: seq<Event>, codec: Codec)
    ensures Run(a + b, codec) ==
              if Run(a, codec).end.Exhausted? then Trace(Run(a, codec).sent + Run(b, codec).sent, Run(b, codec).end)
              else Run(a, codec)
    decreases |a|
  {
    if |a| == 0 {
      assert a + b == b;
    } else {
      assert (a + b)[0] == a[0];
      assert (a + b)[1..] == a[1..] + b;
      if a[0].Consumed? && Handle(a[0].msg, a[0].verdict, codec).Done? {
        RunAppend(a[1..], b, codec);
        var record := Handle(a[0].msg, a[0].verdict, codec).value;
        var ra, rb := Run(a[1..], codec), Run(b, codec);
        if ra.end.Exhausted? {
          assert [record] + (ra.sent + rb.sent) == ([record] + ra.sent) + rb.sent;
        }
      }
    }
  }

  /** A failed send does not stop the worker: when every event is a message
      the handler accepts, every one of them is handled and sends one record,
      whatever the broker answers, and each record reports its own verdict. */
  lemma RunContinuesPastSendFailures(events: seq<Event>, codec: Codec)
    requires forall i :: 0 <= i < |events| ==> events[i].Consumed? && Accepted(events[i].msg, codec)
    ensures Run(events, codec).end == Exhausted
    ensures |Run(events, codec).sent| == |events|
    ensures forall i :: 0 <= i < |events| ==> Run(events, codec).sent[i].report == events[i].verdict
  {
  }

  /** Two runs over the same messages whose sends the broker answers
      differently send the same responses to the same topics, in the same
      order, and end the same way: delivery verdicts affect only what is
      reported. */
  lemma {:induction false} RunIgnoresVerdicts(a: seq<Event>, b: seq<Event>, codec: Codec)
    requires |a| == |b|
    requires forall i :: 0 <= i < |a| ==> a[i].ConsumerError? == b[i].ConsumerError?
    requires forall i :: 0 <= i < |a| ==> a[i].Consumed? ==> a[i].msg == b[i].msg
    ensures |Run(a, codec).sent| == |Run(b, codec).sent|
    ensures Run(a, codec).end == Run(b, codec).end
    ensures forall i :: 0 <= i < |Run(a, codec).sent| ==>
              && Run(a, codec).sent[i].topic == Run(b, codec).sent[i].topic
              && Run(a, codec).sent[i].response == Run(b, codec).sent[i].response
    decreases |a|
  {
    if |a| > 0 {
      RunIgnoresVerdicts(a[1..], b[1..], codec);
      assert Run(a, codec).end == Run(b, codec).end by {
        if a[0].Consumed? {
          var ha, hb := Handle(a[0].msg, a[0].verdict, codec), Handle(b[0].msg, b[0].verdict, codec);
          assert ha.Done? == hb.Done?;
        }
      }
    }
  }

  /** Every record sent answers the message at the same position of the
      stream: it goes to that message's output topic and carries its id. */
  lemma RunCorrelatesResponses(events: seq<Event>, codec: Codec, i: nat)
    requires i < |Run(events, codec).sent|
    ensures events[i].Consumed? && Accepted(events[i].msg, codec)
    ensures Run(events, codec).sent[i].topic == OutputTopic(FromStr(events[i].msg.topic).value)
    ensures Run(events, codec).sent[i].response.id == Decoded(events[i].msg, codec).value.id
  {
    var record := Run(events, codec).sent[i];
    assert Handle(events[i].msg, events[i].verdict, codec) == Done(record);
  }

  /** A message on `MINUS` whose payload decodes to id 42 and operands
      10.5 and 3.25 makes the worker send id 42 with result 7.25 to
      `MINUS_RESULT`. */
  lemma MinusScenario(bytes: seq<Byte>, json: string, codec: Codec, verdict: Delivery)
    requires codec.utf8(bytes) == Some(json)
    requires codec.json(json) == Some(PayloadRequest(42, [10.5, 3.25]))
    ensures Run([Consumed(Message("MINUS", Some(bytes)), verdict)], codec)
            == Trace([SentRecord("MINUS_RESULT", PayloadResponse(42, 7.25), verdict)], Exhausted)
  {
    var events := [Consumed(Message("MINUS", Some(bytes)), verdict)];
    assert events[1..] == [];
  }

  /** A payload with a single operand panics at `operands[1]`: nothing is sent
      and the worker stops, so a later, well-formed message is never
      handled. */
  lemma SingleOperandScenario(bytes: seq<Byte>, json: string, codec: Codec, later: Event)
    requires codec.utf8(bytes) == Some(json)
    requires codec.json(json) == Some(PayloadRequest(7, [5.0]))
    ensures Run([Consumed(Message("MINUS", Some(bytes)), Delivered), later], codec)
            == Trace([], Panicked(IndexOutOfBounds(1, 1)))
  {
  }
}
