/** The operator rules of the checker: the type of `l op r` from the types
    of its operands, with the advisories each rule appends. */
module Operators {
  import opened Numbers
  import opened Errors
  import opened FixedPoint
  import opened Issues

  /** `Strict` is the checker's own arithmetic, which the file scan always
      uses; `Truncating` is the Verilog-style rule (the source's
      `verilog == True`), where an operation keeps the wider operand's width. */
  datatype Mode = Strict | Truncating

  /** A computed type with the advisories appended while computing it. */
  datatype Outcome = Outcome(ty: Ty, issues: seq<Issue>)

  function Max(a: int, b: int): (m: int)
    ensures m >= a && m >= b && (m == a || m == b)
  {
    if a >= b then a else b
  }

  function Abs(a: int): (m: int)
    ensures m >= 0 && (m == a || m == -a)
  {
    if a >= 0 then a else -a
  }

  predicate BothFractional(l: Ty, r: Ty) { l.frac != 0 && r.frac != 0 }

  /** Width and signedness of an operation that does not grow the result:
      truncating mode keeps the wider width and is signed only if both are;
      strict mode (for add and divide) keeps the wider width when both are
      fractional, otherwise the width of the fractional operand, falling
      back to the right one, and is signed if either is. */
  function KeptWidth(mode: Mode, l: Ty, r: Ty): (p: (int, bool))
    ensures mode == Truncating ==> p.0 == Max(l.total, r.total) && (p.1 <==> l.signed && r.signed)
    ensures mode == Strict ==> (p.1 <==> l.signed || r.signed)
    ensures mode == Strict && BothFractional(l, r) ==> p.0 == Max(l.total, r.total)
    ensures mode == Strict && !BothFractional(l, r) ==> p.0 == (if l.frac != 0 then l.total else r.total)
  {
    match mode
    case Truncating => (Max(l.total, r.total), l.signed && r.signed)
    case Strict =>
      (if BothFractional(l, r) then Max(l.total, r.total) else if l.frac != 0 then l.total else r.total,
       l.signed || r.signed)
  }

  /** `add_types`: addition and subtraction. */
  function AddTypes(mode: Mode, l: Ty, r: Ty, op: Op): (o: Outcome)
    requires op == Add || op == Sub
    ensures o.ty.frac == l.frac
    ensures o.issues == [] || o.issues == [FracMismatch(op, l.frac, r.frac)]
    ensures o.issues != [] <==> BothFractional(l, r) && Abs(l.frac - r.frac) > 1
    ensures (o.ty.total, o.ty.signed) == KeptWidth(mode, l, r)
  {
    var issues := if BothFractional(l, r) && Abs(l.frac - r.frac) > 1 then [FracMismatch(op, l.frac, r.frac)] else [];
    var (bits, signed) := KeptWidth(mode, l, r);
    Outcome(Ty(signed, bits, l.frac), issues)
  }

  /** Fractional bits of a product (sum) or quotient (difference) when both
      operands are fractional, else those of the fractional operand, falling
      back to the right one. */
  function CombinedFrac(l: Ty, r: Ty, sum: bool): (f: int)
    ensures BothFractional(l, r) ==> f == (if sum then l.frac + r.frac else l.frac - r.frac)
    ensures !BothFractional(l, r) ==> f == (if l.frac != 0 then l.frac else r.frac)
  {
    if BothFractional(l, r) then (if sum then l.frac + r.frac else l.frac - r.frac)
    else if l.frac != 0 then l.frac else r.frac
  }

  /** `multiply_types`: strict mode gives a product of two fractional
      operands the sum of their widths. */
  function MulTypes(mode: Mode, l: Ty, r: Ty): (t: Ty)
    ensures t.frac == CombinedFrac(l, r, true)
    ensures mode == Strict && BothFractional(l, r) ==> t.total == l.total + r.total && (t.signed <==> l.signed || r.signed)
    ensures !(mode == Strict && BothFractional(l, r)) ==> (t.total, t.signed) == KeptWidth(mode, l, r)
  {
    var (kept, signed) := KeptWidth(mode, l, r);
    var bits := if mode == Strict && BothFractional(l, r) then l.total + r.total else kept;
    Ty(signed, bits, CombinedFrac(l, r, true))
  }

  /** `divide_types`. */
  function DivTypes(mode: Mode, l: Ty, r: Ty): (t: Ty)
    ensures t.frac == CombinedFrac(l, r, false)
    ensures (t.total, t.signed) == KeptWidth(mode, l, r)
  {
    var (bits, signed) := KeptWidth(mode, l, r);
    Ty(signed, bits, CombinedFrac(l, r, false))
  }

  /** The shift rules. The amount must be a number literal (`amount` is its
      value, None for any other expression). A left shift adds the amount to
      the width, and to the frac unless the frac is 0; a right shift
      subtracts it likewise. Signedness never changes; a right shift whose
      kind does not match the operand's signedness is reported, and a zero
      amount is reported as redundant after it. */
  function ShiftTypes(op: Op, l: Ty, amount: Option<int>): (r: Result<Outcome>)
    requires op == Shl || op == Shr || op == Shrs
    ensures r.Err? <==> amount.None?
    ensures r.Err? ==> r.error == NonLiteralShift
    ensures r.Ok? ==> r.value.ty.signed == l.signed
    ensures r.Ok? && op == Shl ==>
              r.value.ty.total == l.total + amount.value
              && r.value.ty.frac == (if l.frac == 0 then 0 else l.frac + amount.value)
    ensures r.Ok? && op != Shl ==>
              r.value.ty.total == l.total - amount.value
              && r.value.ty.frac == (if l.frac == 0 then 0 else l.frac - amount.value)
    ensures r.Ok? ==>
              r.value.issues ==
                (if op == Shrs && !l.signed then [SignedShiftOfUnsigned]
                 else if op == Shr && l.signed then [UnsignedShiftOfSigned]
                 else [])
                + (if amount.value == 0 then [RedundantShift] else [])
  {
    match amount
    case None => Err(NonLiteralShift)
    case Some(n) =>
      var signIssue :=
        if op == Shrs && !l.signed then [SignedShiftOfUnsigned]
        else if op == Shr && l.signed then [UnsignedShiftOfSigned]
        else [];
      var zeroIssue := if n == 0 then [RedundantShift] else [];
      var delta := if op == Shl then n else -n;
      Ok(Outcome(Ty(l.signed, l.total + delta, if l.frac == 0 then 0 else l.frac + delta), signIssue + zeroIssue))
  }

  // ---------------------------------------------------------------------
  // What the types mean: a type describes the raw two's-complement integers
  // of its width; the real value is the raw integer scaled by 2^-frac.

  /** `raw` is representable in `t`. */
  predicate Holds(t: Ty, raw: int) {
    if t.signed then t.total >= 1 && -(Pow2(t.total - 1) as int) <= raw < Pow2(t.total - 1)
    else t.total >= 0 && 0 <= raw < Pow2(t.total)
  }

  lemma MulBound(a: int, b: int, A: int, B: int)
    requires 0 <= a <= A && 0 <= b <= B
    ensures a * b <= A * B
  {
    assert a * b <= A * b;
    assert A * b <= A * B;
  }

  lemma UnsignedProduct(x: int, y: int, A: int, B: int)
    requires 0 <= x < A && 0 <= y < B
    ensures 0 <= x * y < A * B
  {
    MulBound(x, y, A - 1, B - 1);
    assert (A - 1) * (B - 1) == A * B - A - B + 1;
  }

  lemma SignedProduct(x: int, y: int, P: int, Q: int)
    requires -P <= x < P && -Q <= y < Q
    ensures -(2 * (P * Q)) <= x * y < 2 * (P * Q)
  {
    MulBound(Abs(x), Abs(y), P, Q);
    assert Abs(x * y) == Abs(x) * Abs(y);
    assert P * Q >= 1 by { MulBound(1, 1, P, Q); }
  }

  lemma MixedProduct(x: int, y: int, P: int, B: int)
    requires -P <= x < P && 0 <= y < B
    ensures -(P * B) <= x * y < P * B
  {
    if x >= 0 {
      UnsignedProduct(x, y, P, B);
    } else {
      MulBound(-x, y, P, B);
      assert x * y == -((-x) * y);
    }
  }

  /** Strict multiplication of two fractional operands is sound: the product
      of any two representable raw values is representable in the result
      type, whose frac is the sum of the scales. */
  lemma StrictProductFits(l: Ty, r: Ty, x: int, y: int)
    requires BothFractional(l, r)
    requires Holds(l, x) && Holds(r, y)
    ensures MulTypes(Strict, l, r).frac == l.frac + r.frac
    ensures Holds(MulTypes(Strict, l, r), x * y)
  {
    var t := MulTypes(Strict, l, r);
    assert t == Ty(l.signed || r.signed, l.total + r.total, l.frac + r.frac);
    HoldsProduct(l, r, t, x, y);
  }

  /** The product of raw values of `l` and `r` is a raw value of any type as
      wide as both together, signed when either is. */
  lemma HoldsProduct(l: Ty, r: Ty, t: Ty, x: int, y: int)
    requires Holds(l, x) && Holds(r, y)
    requires t.signed == (l.signed || r.signed) && t.total == l.total + r.total
    ensures Holds(t, x * y)
  {
    if l.signed && r.signed {
      ProductBothSigned(l, r, t, x, y);
    } else if l.signed {
      ProductOneSigned(l, r, t, x, y);
    } else if r.signed {
      ProductOneSigned(r, l, t, y, x);
      assert y * x == x * y;
    } else {
      var A, B := Pow2(l.total), Pow2(r.total);
      assert Pow2(t.total) == A * B by { Pow2Add(l.total, r.total); }
      UnsignedProduct(x, y, A, B);
    }
  }

  lemma ProductBothSigned(l: Ty, r: Ty, t: Ty, x: int, y: int)
    requires Holds(l, x) && Holds(r, y) && l.signed && r.signed
    requires t.signed && t.total == l.total + r.total
    ensures Holds(t, x * y)
  {
    var P, Q := Pow2(l.total - 1), Pow2(r.total - 1);
    assert Pow2(t.total - 1) == 2 * (P * Q) by {
      Pow2Add(l.total - 1, r.total - 1);
      assert t.total - 1 == ((l.total - 1) + (r.total - 1)) + 1;
    }
    SignedProduct(x, y, P, Q);
  }

  lemma ProductOneSigned(l: Ty, r: Ty, t: Ty, x: int, y: int)
    requires Holds(l, x) && Holds(r, y) && l.signed && !r.signed
    requires t.signed && t.total == l.total + r.total
    ensures Holds(t, x * y)
  {
    var P, B := Pow2(l.total - 1), Pow2(r.total);
    assert Pow2(t.total - 1) == P * B by {
      Pow2Add(l.total - 1, r.total);
      assert t.total - 1 == (l.total - 1) + r.total;
    }
    MixedProduct(x, y, P, B);
  }

  /** A left shift by a non-negative literal is sound: shifting a
      representable raw value gives one representable in the result type,
      with the same real value when the operand is fractional. */
  lemma ShiftLeftFits(t: Ty, n: nat, x: int)
    requires Holds(t, x)
    ensures ShiftTypes(Shl, t, Some(n)).Ok?
    ensures Holds(ShiftTypes(Shl, t, Some(n)).value.ty, x * Pow2(n))
  {
    var u := ShiftTypes(Shl, t, Some(n)).value.ty;
    HoldsScaled(t, u, n, x);
  }

  /** Scaling by 2^n a raw value of `t` gives one of any type `n` bits wider. */
  lemma HoldsScaled(t: Ty, u: Ty, n: nat, x: int)
    requires Holds(t, x) && u.signed == t.signed && u.total == t.total + n
    ensures Holds(u, x * Pow2(n))
  {
    if t.signed {
      assert u.total - 1 == (t.total - 1) + n;
      Pow2Add(t.total - 1, n);
      ScaleSigned(x, Pow2(t.total - 1), Pow2(n));
    } else {
      Pow2Add(t.total, n);
      ScaleUnsigned(x, Pow2(t.total), Pow2(n));
    }
  }

  lemma ScaleSigned(x: int, P: int, D: int)
    requires -P <= x < P && D >= 1
    ensures -(P * D) <= x * D < P * D
  {
    if x >= 0 {
      MulBound(x + 1, D, P, D);
    } else {
      MulBound(-x, D, P, D);
      assert x * D == -((-x) * D);
    }
  }

  lemma ScaleUnsigned(x: int, A: int, D: int)
    requires 0 <= x < A && D >= 1
    ensures 0 <= x * D < A * D
  {
    MulBound(x + 1, D, A, D);
  }

  /** A right shift by a literal undoes a left shift by the same literal:
      `(x << n) >> n` and `(x << n) >>> n` have x's type again, for every
      type with a non-negative frac. */
  lemma ShiftRoundTrip(t: Ty, n: nat, op: Op)
    requires op == Shr || op == Shrs
    requires t.frac >= 0
    ensures var left := ShiftTypes(Shl, t, Some(n)).value.ty;
      ShiftTypes(op, left, Some(n)).value.ty == t
  {
  }

  /** A negative frac is the one case where the round trip fails: `U8F-2`
      shifted left by 2 loses its scale. */
  lemma ShiftRoundTripNeedsFrac()
    ensures var t := Ty(false, 8, -2);
      ShiftTypes(Shr, ShiftTypes(Shl, t, Some(2)).value.ty, Some(2)).value.ty != t
  {
  }

  /** Strict addition reserves no carry bit: two full-range `U8F0` values
      do not fit the `U8F0` result. */
  lemma StrictSumHasNoCarryBit()
    ensures var t := Ty(false, 8, 0);
      AddTypes(Strict, t, t, Add).ty == t && Holds(t, 255) && !Holds(t, 255 + 255)
  {
    assert Pow2(8) == 256;
  }

  /** The worked example: `S12F11 * S12F11` is `S24F22` in strict mode. */
  lemma ProductExample()
    ensures MulTypes(Strict, Ty(true, 12, 11), Ty(true, 12, 11)) == Ty(true, 24, 22)
  {
  }
}
