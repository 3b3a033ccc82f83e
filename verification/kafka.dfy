/** Topics, wire payloads and request construction (`rust/src/kafka.rs`).
    The JSON text of a payload is decoded by `serde_json`, which is not part
    of this model: it is passed in as a function from text to the decoded
    `PayloadRequest`, `None` standing for a deserialisation failure.
 */
module Kafka {
  import opened Prelude
  import Op = Operations

  /** The decoded JSON body of an input message. */
  datatype PayloadRequest = PayloadRequest(id: U128, operands: seq<real>)

  /** The JSON body of a result message. `PayloadResponse::new(id, result)`
      is this constructor. */
  datatype PayloadResponse = PayloadResponse(id: U128, result: real)

  /** One unit of work: the caller's correlation id and the operation. */
  datatype Request = Request(id: U128, op: Op.Operation)

  /** The closed set of input topics. */
  datatype Topic = Minus

  /** The input topic name each variant is read from: the inverse of
      `FromStr`. */
  function Name(t: Topic): string
  {
    match t
    case Minus => "MINUS"
  }

  /** The fixed topic each variant's results are sent to. It is never the
      name of an input topic, and it does not resolve as one. */
  function OutputTopic(t: Topic): (out: string)
    ensures forall u: Topic :: out != Name(u)
    ensures FromStr(out).Err?
  {
    match t
    case Minus => "MINUS_RESULT"
  }

  /** `Topic::from_str`: exact, case-sensitive lookup of a topic name. A name
      is accepted exactly when it is the name of some topic, and then it
      resolves to that topic; anything else is an error naming the input. */
  function FromStr(s: string): (r: Result<Topic, string>)
    ensures r.Ok? <==> exists t: Topic :: Name(t) == s
    ensures r.Ok? ==> Name(r.value) == s
    ensures r.Err? ==> r.error == "Unknown topic " + s
  {
    if s == "MINUS" then
      assert Name(Minus) == s;
      Ok(Minus)
    else
      Err("Unknown topic " + s)
  }

  /** Every topic's name resolves back to that topic. */
  lemma FromStrName(t: Topic)
    ensures FromStr(Name(t)) == Ok(t)
  {
  }

  /** Matching is exact: a different case, a prefix, an extension or the
      output topic name are all rejected. */
  lemma FromStrRejectsNearMisses()
    ensures FromStr("minus").Err?
    ensures FromStr("Minus").Err?
    ensures FromStr("MIN").Err?
    ensures FromStr("MINUS ").Err?
    ensures FromStr("").Err?
    ensures FromStr("MINUS_RESULT").Err?
  {
  }

  /** `parse_request`. The payload text is deserialised with `deserialize`;
      a failure panics. The first two operands become the two sides of
      `Minus`, in order, and any further operands are ignored; fewer than two
      operands panic at the first missing index. When it returns at all it
      returns `Some`. */
  function ParseRequest(topic: Topic, json: string, deserialize: string -> Option<PayloadRequest>): (r: Outcome<Option<Request>>)
    ensures r.Done? <==> deserialize(json).Some? && |deserialize(json).value.operands| >= 2
    ensures r.Done? ==> r.value.Some?
    ensures r.Done? ==>
              var p := deserialize(json).value;
              r.value.value.id == p.id && r.value.value.op == Op.Minus(p.operands[0], p.operands[1])
    ensures deserialize(json).None? ==> r == Abort(DeserializeFailed)
    ensures deserialize(json).Some? && |deserialize(json).value.operands| < 2 ==>
              r == Abort(IndexOutOfBounds(|deserialize(json).value.operands|, |deserialize(json).value.operands|))
  {
    match topic
    case Minus =>
      match deserialize(json)
      case None => Abort(DeserializeFailed)
      case Some(payload) =>
        if |payload.operands| <= 0 then Abort(IndexOutOfBounds(0, |payload.operands|))
        else
          var l := payload.operands[0];
          if |payload.operands| <= 1 then Abort(IndexOutOfBounds(1, |payload.operands|))
          else
            var r := payload.operands[1];
            Done(Some(Request(payload.id, Op.Minus(l, r))))
  }

  /** The payload that carries exactly a given request: its id and its two
      operands, nothing more. */
  function RequestPayload(req: Request): PayloadRequest
  {
    PayloadRequest(req.id, [req.op.l, req.op.r])
  }

  /** Parsing the payload of a request gives that request back. */
  lemma ParseRequestPayload(req: Request, json: string, deserialize: string -> Option<PayloadRequest>)
    requires deserialize(json) == Some(RequestPayload(req))
    ensures ParseRequest(Minus, json, deserialize) == Done(Some(req))
  {
  }

  /** Conversely, a parsed request is determined by the payload's id and its
      first two operands: the payload of the request is the decoded payload
      cut down to two operands. */
  lemma ParsedRequestPayload(json: string, deserialize: string -> Option<PayloadRequest>, req: Request)
    requires ParseRequest(Minus, json, deserialize) == Done(Some(req))
    ensures deserialize(json).Some?
    ensures RequestPayload(req) == PayloadRequest(deserialize(json).value.id, deserialize(json).value.operands[..2])
  {
  }

  /** Operands beyond the second are ignored: two payloads that agree on the
      id and the first two operands parse to the same outcome. */
  lemma ParseRequestIgnoresExtraOperands(json1: string, json2: string, deserialize: string -> Option<PayloadRequest>)
    requires deserialize(json1).Some? && deserialize(json2).Some?
    requires deserialize(json1).value.id == deserialize(json2).value.id
    requires |deserialize(json1).value.operands| >= 2 && |deserialize(json2).value.operands| >= 2
    requires deserialize(json1).value.operands[..2] == deserialize(json2).value.operands[..2]
    ensures ParseRequest(Minus, json1, deserialize) == ParseRequest(Minus, json2, deserialize)
  {
  }
}
