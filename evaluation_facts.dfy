/** Properties of expression evaluation that span several rules. */
module EvaluationFacts {
  import opened Errors
  import opened FixedPoint
  import opened Issues
  import opened Literals
  import opened Operators
  import opened Syntax
  import opened Transformer

  /** A failure blames an identifier only when the table lacks it. */
  predicate BlamesMissing(e: Failure, table: Table) {
    e.UnknownIdentifier? ==> e.name !in table
  }

  /** Decoding a literal fails only for the literal itself. */
  lemma DecodeBlamesNoName(tok: string)
    ensures DecodeNumber(tok).Err? ==> DecodeNumber(tok).error in {RealLiteral(tok), BadLiteral(tok)}
  {
  }

  /** An identifier evaluates exactly when the table knows it, to its
      table type, as a non-literal without advisories. */
  lemma IdentifierTakesTableType(mode: Mode, table: Table, name: string)
    ensures var r := Eval(mode, table, Identifier(name));
      (r.Ok? <==> name in table) && (r.Err? ==> r.error == UnknownIdentifier(name))
      && (r.Ok? ==> r.value.value.ty == table[name] && r.value.value.lit.None? && r.value.issues == [])
  {
  }

  /** A number evaluates exactly when it decodes, to the decoded type and
      value, without advisories. */
  lemma NumberTakesDecodedType(mode: Mode, table: Table, tok: string)
    ensures var r := Eval(mode, table, Number(tok)); var d := DecodeNumber(tok);
      (r.Ok? <==> d.Ok?) && (r.Err? ==> r.error == d.error)
      && (r.Ok? ==> r.value.value.ty == d.value.ty && r.value.value.lit == Some(d.value.value) && r.value.issues == [])
  {
  }

  /** Parentheses keep the outcome of their operand: its failure, or its
      type, literal value and advisories. */
  lemma ParenPassesThrough(mode: Mode, table: Table, e: Node)
    ensures var r := Eval(mode, table, Paren(e)); var s := Eval(mode, table, e);
      (r.Ok? <==> s.Ok?) && (r.Err? ==> r.error == s.error)
      && (r.Ok? ==> r.value.value.ty == s.value.value.ty && r.value.value.lit == s.value.value.lit
                    && r.value.issues == s.value.issues)
  {
  }

  /** So does `~`. */
  lemma NegatePassesThrough(mode: Mode, table: Table, e: Node)
    ensures var r := Eval(mode, table, Negate(e)); var s := Eval(mode, table, e);
      (r.Ok? <==> s.Ok?) && (r.Err? ==> r.error == s.error)
      && (r.Ok? ==> r.value.value.ty == s.value.value.ty && r.value.value.lit == s.value.value.lit
                    && r.value.issues == s.value.issues)
  {
  }

  /** An array access fails on an unknown array; otherwise it has the
      array's type whatever the index, and fails only when the index does. */
  lemma IndexTakesArrayType(mode: Mode, table: Table, name: string, index: Node)
    ensures var r := Eval(mode, table, Index(name, index)); var i := Eval(mode, table, index);
      (name !in table ==> r == Err(UnknownIdentifier(name)))
      && (name in table ==>
            (r.Ok? <==> i.Ok?) && (r.Err? ==> r.error == i.error)
            && (r.Ok? ==> r.value.value.ty == table[name] && r.value.value.lit.None? && r.value.issues == i.value.issues))
  {
  }

  /** A number under a type annotation takes the declared type, with no
      advisory, when it is an integer literal that decodes or a
      decimal-point literal; a decimal-point literal alone does not
      evaluate. */
  lemma AnnotatedNumberTakesDeclared(mode: Mode, table: Table, typeText: string, tok: string)
    ensures IsRealLiteral(tok) ==> Eval(mode, table, Number(tok)) == Err(RealLiteral(tok))
    ensures ParseType(typeText).Ok? && (IsRealLiteral(tok) || DecodeNumber(tok).Ok?) ==>
              var r := Eval(mode, table, Annotated(typeText, Number(tok)));
              r.Ok? && r.value.value.ty == ParseType(typeText).value && r.value.issues == []
              && r.value.value.text == typeText + " " + tok
    ensures ParseType(typeText).Err? ==> Eval(mode, table, Annotated(typeText, Number(tok))) == Err(ParseType(typeText).error)
  {
  }

  /** A chain fold fails only on a shift whose amount is not a literal. */
  lemma {:induction false} FoldFailsOnShiftOnly(mode: Mode, acc: Acc, ops: seq<Op>, rights: seq<Value>)
    requires |ops| == |rights|
    ensures FoldFrom(mode, acc, ops, rights).Err? ==> FoldFrom(mode, acc, ops, rights).error == NonLiteralShift
    decreases |ops|
  {
    if ops != [] {
      var step := ApplyStep(mode, acc, ops[0], rights[0]);
      if step.Ok? {
        FoldFailsOnShiftOnly(mode, step.value, ops[1..], rights[1..]);
      }
    }
  }

  /** "Unknown identifier" is reported only for names the table lacks. */
  lemma {:induction false} UnknownMeansMissing(mode: Mode, table: Table, n: Node)
    ensures Eval(mode, table, n).Err? ==> BlamesMissing(Eval(mode, table, n).error, table)
    decreases n, 1, 0
  {
    match n
    case Number(text) => DecodeBlamesNoName(text);
    case Identifier(_) =>
    case TypeName(_) =>
    case Concatenation(_) => PartsBlameMissing(mode, table, n, 0);
    case Chain(_, first, steps) => ChainBlamesMissing(mode, table, n);
    case Replicate(_, _) => PairBlamesMissing(mode, table, n);
    case Slice(_, _, _) => PairBlamesMissing(mode, table, n);
    case _ => OperandBlamesMissing(mode, table, n);
  }

  /** The same, for the nodes with two operands. */
  lemma {:induction false} PairBlamesMissing(mode: Mode, table: Table, n: Node)
    requires n.Replicate? || n.Slice?
    ensures Eval(mode, table, n).Err? ==> BlamesMissing(Eval(mode, table, n).error, table)
    decreases n, 0, 0
  {
    match n
    case Replicate(c, v) =>
      UnknownMeansMissing(mode, table, c);
      UnknownMeansMissing(mode, table, v);
    case Slice(_, hi, lo) =>
      UnknownMeansMissing(mode, table, hi);
      UnknownMeansMissing(mode, table, lo);
  }

  /** The same, for the nodes with one operand. */
  lemma {:induction false} OperandBlamesMissing(mode: Mode, table: Table, n: Node)
    requires n.Annotated? || n.Paren? || n.Abs? || n.SignedCast? || n.Index? || n.Negate?
    ensures Eval(mode, table, n).Err? ==> BlamesMissing(Eval(mode, table, n).error, table)
    decreases n, 0, 0
  {
    match n
    case Annotated(_, sub) => UnknownMeansMissing(mode, table, sub);
    case Paren(e) => UnknownMeansMissing(mode, table, e);
    case Abs(e) => UnknownMeansMissing(mode, table, e);
    case SignedCast(_, e) => UnknownMeansMissing(mode, table, e);
    case Index(_, i) => UnknownMeansMissing(mode, table, i);
    case Negate(e) => UnknownMeansMissing(mode, table, e);
  }

  lemma {:induction false} ChainBlamesMissing(mode: Mode, table: Table, n: Node)
    requires n.Chain?
    ensures Eval(mode, table, n).Err? ==> BlamesMissing(Eval(mode, table, n).error, table)
    decreases n, 0, |n.steps| + 1
  {
    UnknownMeansMissing(mode, table, n.first);
    StepsBlameMissing(mode, table, n, 0);
    var f := Eval(mode, table, n.first);
    var rs := EvalSteps(mode, table, n, 0);
    if f.Ok? && rs.Ok? {
      FoldFailsOnShiftOnly(mode, Acc(f.value.value.ty, f.value.value.text, []), StepOps(n.steps), Values(rs.value));
    }
  }

  lemma {:induction false} StepsBlameMissing(mode: Mode, table: Table, n: Node, i: nat)
    requires n.Chain? && i <= |n.steps|
    ensures EvalSteps(mode, table, n, i).Err? ==> BlamesMissing(EvalSteps(mode, table, n, i).error, table)
    decreases n, 0, |n.steps| - i
  {
    if i < |n.steps| {
      UnknownMeansMissing(mode, table, n.steps[i].arg);
      StepsBlameMissing(mode, table, n, i + 1);
    }
  }

  lemma {:induction false} PartsBlameMissing(mode: Mode, table: Table, n: Node, i: nat)
    requires n.Concatenation? && i <= |n.parts|
    ensures EvalParts(mode, table, n, i).Err? ==> BlamesMissing(EvalParts(mode, table, n, i).error, table)
    decreases n, 0, |n.parts| - i
  {
    if i < |n.parts| {
      UnknownMeansMissing(mode, table, n.parts[i]);
      PartsBlameMissing(mode, table, n, i + 1);
    }
  }

  /** A shift by the literal 0 is reported twice: once by the shift chain and
      once more by the shift rule, with a sign advisory between them when one applies. */
  lemma ZeroShiftReportedTwice(mode: Mode, acc: Acc, op: Op, right: Value)
    requires op == Shl || op == Shr || op == Shrs
    requires right.lit == Some(0)
    ensures var r := ApplyStep(mode, acc, op, right);
      r.Ok? && r.value.ty == acc.ty
      && exists sign: seq<Issue> :: |sign| <= 1
           && r.value.issues == acc.issues + [RedundantShiftBy(op)] + sign + [RedundantShift]
  {
    var o := ShiftTypes(op, acc.ty, Some(0));
    var sign := if op == Shrs && !acc.ty.signed then [SignedShiftOfUnsigned]
                else if op == Shr && acc.ty.signed then [UnsignedShiftOfSigned] else [];
    assert o.value.issues == sign + [RedundantShift];
    assert ApplyStep(mode, acc, op, right).value.issues == acc.issues + [RedundantShiftBy(op)] + sign + [RedundantShift];
  }

  /** A replication reaches the concatenation rule as its only argument, and a
      concatenation of one argument keeps no element: the result is always
      an unsigned zero-width integer, whatever the count and the value. */
  lemma ReplicationCollapses(mode: Mode, table: Table, count: Node, value: Node)
    ensures Eval(mode, table, Replicate(count, value)).Ok? ==>
              Eval(mode, table, Replicate(count, value)).value.value.ty == Ty(false, 0, 0)
  {
  }

  /** A concatenation's width is the sum of the widths of the elements its
      callback keeps; sign and frac are the last kept element's. */
  lemma ConcatenationWidth(mode: Mode, table: Table, n: Node)
    requires n.Concatenation?
    ensures var r := Eval(mode, table, n);
      r.Ok? ==> var rs := EvalParts(mode, table, n, 0).value; var kept := Collected(Values(rs));
        r.value.value.ty.total == SumWidths(kept)
        && (kept != [] ==> r.value.value.ty.signed == kept[|kept| - 1].ty.signed
                           && r.value.value.ty.frac == kept[|kept| - 1].ty.frac)
  {
  }
}
