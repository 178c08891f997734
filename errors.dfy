/** Failures that abort the evaluation of one expression, and the
    failure-compatible result type that carries them. */
module Errors {

  /** Why an expression could not be evaluated. The source raises these as
      Python exceptions; only their kind and the data in the message are kept. */
  datatype Failure =
    | UnknownIdentifier(name: string)   // FixedPointError "Unknown identifier: <name>"
    | Syntax                            // the parser rejected the text
    | InvalidType(token: string)        // parse_type: malformed or signed with total == frac
    | BadLiteral(token: string)         // int() rejected the digits, or 0'sd... (negative shift count)
    | RealLiteral(token: string)        // a decimal-point literal (not modelled)
    | InvalidBitSlice(width: int)       // constant slice with hi - lo + 1 <= 0
    | NonLiteralShift                   // shift amount is not a number literal

  datatype Result<+T> = Ok(value: T) | Err(error: Failure) {
    predicate IsFailure() { Err? }

    function PropagateFailure<U>(): Result<U>
      requires Err?
    {
      Err(error)
    }

    function Extract(): T
      requires Ok?
    {
      value
    }
  }

  datatype Option<+T> = None | Some(value: T)
}
