# ingestion: the per-message dispatch path of the Rust Kafka processor

This project is a Dafny model of the Rust processor in `rust/src`. The processor
reads requests from Kafka input topics, evaluates them and publishes the
results. The model covers the path one message takes through a worker:

- **Operations** (`operation.dfy`, from `rust/src/operation.rs`): the closed
  `Operation` enum, whose only variant is `Minus(l, r)`, and `Eval`, which is
  total.
- **Kafka** (`kafka.dfy`, from `rust/src/kafka.rs`): the closed `Topic` enum,
  exact topic-name lookup (`FromStr`), the fixed output topic
  (`OutputTopic`), the wire records `PayloadRequest` and `PayloadResponse`
  (`PayloadResponse::new` is the datatype constructor), `Request`, and
  `ParseRequest`. `ParseRequest` builds `Minus(operands[0], operands[1])` from
  a decoded payload and panics when it cannot.
- **Processor** (`processor.dfy`, from `rust/src/main.rs`): `Handle` is the
  closure that `try_for_each` runs for each message. `Run` is the fold over a
  finite stream of consumer events. Each send appends a
  `(topic, response, delivery report)` record to a log. `Process` is the same
  fold written as a loop.
- **Prelude** (`prelude.dfy`): `Option`, `Result`, `U128`, bytes, and
  `Outcome`. `Outcome` is either a value or an `Abort` with the cause of a
  Rust panic.

Every `expect` and every out-of-bounds index in the handler is a panic, and
a panic ends the worker. The model makes this explicit: the run stops, and
nothing is sent for the message that panicked. A failed send is only printed,
and the handler still returns `Ok(())`. The model records the delivery
verdict in the log, and processing continues. The code never commits an
offset, so the log has no commit records.

Code that is not part of this model becomes a parameter:

- `Codec.utf8` stands for `std::str::from_utf8`.
- `Codec.json` stands for `serde_json::from_str::<PayloadRequest>`.
- The broker's answer to each `send` comes in with the consumed event.

## Error behaviour

- **Malformed messages.** A message with no payload, a non-UTF-8 payload,
  an unknown topic, a payload that does not deserialise, or fewer than two
  operands makes the handler panic, and the panic ends the worker
  (`rust/src/main.rs:56-60`, `rust/src/kafka.rs:56-60`). `Run` stops at that
  message and sends nothing for it. `SingleOperandScenario` shows a later,
  well-formed message that is never handled.
- **Offset commits.** No offset is ever committed. Auto-commit is off
  (`rust/src/main.rs:26`) and the code has no commit call, so the model has
  no commit records.
- **Failed sends.** A failed send is only printed, and the handler goes on
  to the next message (`rust/src/main.rs:69-73`).
- **Extra operands.** Operands beyond the second are ignored without error
  (`rust/src/kafka.rs:59-60`).

## Model

| member | source | states |
|---|---|---|
| Operations.Eval | rust/src/operation.rs:6-10 | Evaluation is total over the closed enum and has no failure path. The value of `Minus(l, r)` is the number that gives `l` when `r` is added back to it. |
| Operations.EvalOperandOrder | rust/src/operation.rs:8 | Operand order matters. Swapping the two operands negates the result, and the two orders agree exactly when the operands are equal. |
| Kafka.OutputTopic | rust/src/kafka.rs:30-34 | Every topic has an output topic, and it is never the name of any input topic. A result topic never resolves as an input topic: if a worker were subscribed to it, it would consume the results and panic at the topic lookup. |
| Kafka.FromStr | rust/src/kafka.rs:40-45 | A string resolves exactly when it is the name of some topic, and then it resolves to that topic. Any other string is the error "Unknown topic " followed by the input. |
| Kafka.FromStrName | rust/src/kafka.rs:40-45 | Round trip: looking up the name of any topic gives back that topic. |
| Kafka.FromStrRejectsNearMisses | rust/src/kafka.rs:41-43 | Matching is case-sensitive and exact. "minus", "Minus", the prefix "MIN", "MINUS " with a trailing space, the empty string and "MINUS_RESULT" are all rejected. |
| Kafka.ParseRequest | rust/src/kafka.rs:53-67 | Returns exactly when the payload deserialises and has at least two operands, and then always returns `Some`. The request keeps the payload id and holds `Minus(operands[0], operands[1])` in that order. A deserialise failure panics, and so does an operand list of length 0 or 1, at the first missing index. |
| Kafka.ParseRequestPayload | rust/src/kafka.rs:59-64 | Round trip: parsing the two-operand payload of any request gives that request back. |
| Kafka.ParsedRequestPayload | rust/src/kafka.rs:59-64 | Converse round trip: a parsed request is the decoded payload cut down to its id and first two operands. |
| Kafka.ParseRequestIgnoresExtraOperands | rust/src/kafka.rs:59-60 | Payloads that agree on the id and on the first two operands parse to the same outcome, whatever else follows. |
| Processor.Handle | rust/src/main.rs:56-73 | The handler either panics before sending anything, or sends exactly one record. Checks run in source order: missing payload, then non-UTF-8, then unknown topic, then deserialise failure, then too few operands. A panic happens exactly when the message is not accepted. The record goes to the output topic of the message's topic. It carries the payload id unchanged and `eval` of the parsed request (first operand minus second), and it reports the broker's verdict without changing anything else. |
| Processor.Run | rust/src/main.rs:53-75 | Messages are handled sequentially: the i-th record sent is the one the i-th message's handler produces. The run ends exactly when the stream is exhausted, or stops at the first consumer error or handler panic. It sends nothing for that event and nothing after it. |
| Processor.Process | rust/src/main.rs:53-78 | The loop form of the worker sends the same records, and ends the same way, as the fold. |
| Processor.RunAppend | rust/src/main.rs:53-75 | Sequential composition: a run over `a + b` is the run over `a`, followed by the run over `b` only if the run over `a` got through all of `a`. |
| Processor.RunContinuesPastSendFailures | rust/src/main.rs:69-73 | When every message is accepted, every message is handled and sends one record, whatever the broker answers. Each record reports its own verdict. |
| Processor.RunIgnoresVerdicts | rust/src/main.rs:65-73 | Delivery verdicts affect only what is reported. Runs over the same messages send the same responses to the same topics, in the same order, and end the same way. |
| Processor.RunCorrelatesResponses | rust/src/main.rs:59-66 | The i-th record answers the i-th message. That message was accepted, and the record goes to its output topic and carries its payload id. |
| Processor.MinusScenario | rust/src/main.rs:56-68 | A message on `MINUS` with id 42 and operands 10.5 and 3.25 leads to exactly one record: id 42 with result 7.25, sent to `MINUS_RESULT`. |
| Processor.SingleOperandScenario | rust/src/main.rs:60 | A payload with one operand panics at index 1 and sends nothing. The worker stops, so the next event is never handled. |

## Left out

- Operations.Eval: operands are reals, not IEEE-754 `f64`. Rounding, NaN, the infinities and signed zero are not modelled, so the contract says nothing about them.
- JSON: `serde_json` deserialisation is the `Codec.json` parameter, and a failure is `None`. Serialising the response (`rust/src/main.rs:63-64`) is treated as infallible and not modelled byte by byte. The log holds the response record itself.
- UTF-8 validation is the `Codec.utf8` parameter. The model does not decide which byte strings are valid UTF-8.
- Kafka client setup: consumer and producer construction, configuration and subscription (`rust/src/main.rs:21-50`) are network plumbing and are not modelled. So is the zero queue timeout of `send`. Its outcome is the per-event delivery verdict.
- Offset commits: the code never commits, so there is nothing to model.
- Concurrency: spawning `num-workers` workers with `tokio::spawn` and `FuturesUnordered` (`rust/src/main.rs:134-144`) is not modelled. The model covers one worker. Partition balancing is left to the broker.
- Argument parsing with clap, logging, and the printed text of the delivery report (`rust/src/main.rs:77-132`) are not modelled. The report is only its delivered/failed verdict.
- The consumer stream is a finite sequence of events. A consumer error ends the run (`StreamFailed`); this stands for the `expect` at `rust/src/main.rs:78`.
- The Kotlin Spring Boot files only set up a Kafka Streams application that prints a topic. They have no logic of their own and are not part of this model.
