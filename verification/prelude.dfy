/** The few pieces of the Rust standard library the processor leans on:
    `Option`, `Result`, fixed-width integers, and the panics raised by
    `expect` and by out-of-bounds indexing. A panic is not an error value in
    Rust; it is modelled here as an `Abort` outcome so that the model can say
    exactly when one happens and what has been sent before it.
 */
module Prelude {

  /** An unsigned 128-bit integer (`u128`). */
  type U128 = x: nat | x < 0x1_0000_0000_0000_0000_0000_0000_0000_0000

  /** One byte of a raw Kafka payload. */
  newtype Byte = x: int | 0 <= x < 256

  datatype Option<+T> = None | Some(value: T)

  datatype Result<+T, +E> = Ok(value: T) | Err(error: E)

  /** Why a message handler panicked. Each constructor is one `expect` or one
      index expression of the handler; the message text of the `expect` is in
      the comment next to it. */
  datatype Panic =
    | NoPayload                                   // "no payload found"
    | NotUtf8                                     // "payload was not UTF8"
    | UnknownTopic(reason: string)                // "unknown topic"
    | DeserializeFailed                           // "Could not deserialize payload"
    | IndexOutOfBounds(index: nat, len: nat)      // `operands[index]` with `len` operands
    | ParseFailed                                 // "Could not parse operation"

  /** The result of running Rust code that may panic: it either finishes with
      a value or aborts with the cause of the panic. */
  datatype Outcome<+T> = Done(value: T) | Abort(cause: Panic)
}
