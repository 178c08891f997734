/** The advisories and diagnostics the checker reports. The source reports
    them as message strings; each kind is a constructor here, carrying the
    data its message prints. */
module Issues {
  import opened Errors
  import opened FixedPoint

  datatype Issue =
    // advisories collected while an expression is evaluated
    | FracMismatch(op: Op, left: int, right: int)   // "Fractional bits do not match for <op>: <l> vs <r>"
    | RedundantShiftBy(shift: Op)                   // "Shift by 0 is redundant: <op> 0" (from the shift chain)
    | RedundantShift                                // "Shift by 0 is redundant" (from the shift rule)
    | SignedShiftOfUnsigned                         // "Signed right shift on unsigned type"
    | UnsignedShiftOfSigned                         // "unsigned right shift on signed type"
    | AbsNotStandard                                // "'abs' is not standard Verilog."
    | SignedWithoutDollar                           // "Use of 'signed' without $ is not standard Verilog."
    | AnnotationMismatch(text: string, declaredTy: Ty, computedTy: Ty)
    | NonConstantSlice(name: string, hi: Ty, lo: Ty)
    // consistency of a computed type against a declared one
    | WidthTooLarge(computedBits: int, declaredBits: int) // "Result width <c> much larger than declared <d>"
    | FracDiffers(computedFrac: int, declaredFrac: int) // "Fractional bits <c> != declared <d>"
    | SignednessMismatch(computedSigned: bool, declaredSigned: bool)
    // per-line diagnostics of the file scan
    | VerilogTypeMismatch(comment: Ty, verilog: Ty) // "Verilog type mismatch: comment computed .., Verilog computed .."
    | ParseError(failure: Failure)                  // "Parse error: <message>"
    | MissingTypeAnnotation(register: string)       // "Register '<name>' is missing type annotation"
    | MissingComment                                // "Missing comment for fixed point arithmetic"
}
