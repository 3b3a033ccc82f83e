/** The arithmetic operations a request can ask for (`rust/src/operation.rs`).
    The set of operations is closed: `Minus` is the only one, and `Eval`
    matches it exhaustively. Operands are 64-bit floats in the source; here
    they are mathematical reals, so rounding, NaN and infinities are not
    modelled.
 */
module Operations {

  datatype Operation = Minus(l: real, r: real)

  /** Evaluates an operation. A pure function of its argument: it only reads
      the operation and changes nothing. Total: every operation has a value
      and there is no failure path. For `Minus(l, r)` the value is the one
      that, added back to the second operand, gives the first. */
  function Eval(op: Operation): (v: real)
    ensures match op case Minus(l, r) => v + r == l
  {
    match op
    case Minus(l, r) => l - r
  }

  /** Operand order matters: swapping the two operands of `Minus` negates the
      result, so the two orders agree only when the operands are equal. */
  lemma EvalOperandOrder(l: real, r: real)
    ensures Eval(Minus(r, l)) == -Eval(Minus(l, r))
    ensures Eval(Minus(r, l)) == Eval(Minus(l, r)) <==> l == r
  {
  }
}
