/** Evaluation of a syntax tree to its fixed-point type: the rule callbacks of
    the source's tree transformer, applied bottom-up and left to right, with
    the advisories they append collected in order. */
module Transformer {
  import opened Text
  import opened Errors
  import opened FixedPoint
  import opened Issues
  import opened Literals
  import opened Operators
  import opened Syntax

  /** The value of a subexpression: its type, its integer value when it is a
      number literal (the source's `NumberType`), and its rendered text. */
  datatype Value = Value(ty: Ty, lit: Option<int>, text: string)

  /** A value with the advisories appended while computing it and its subexpressions. */
  datatype Reduced = Reduced(value: Value, issues: seq<Issue>)

  /** The known identifier types. */
  type Table = map<string, Ty>

  // ---------------------------------------------------------------------
  // Rule callbacks on already evaluated children

  /** `type_annotated_expr`: a literal takes the declared type; any other
      operand keeps its computed type, and a declared type that differs
      from it is reported. */
  function AnnotateRule(typeText: string, declared: Ty, sub: Reduced): (r: Reduced)
    ensures sub.value.lit.Some? ==> r.value.ty == declared && r.issues == sub.issues
    ensures sub.value.lit.None? ==> r.value.ty == sub.value.ty
    ensures sub.value.lit.None? ==>
              r.issues == sub.issues + (if declared != sub.value.ty then [AnnotationMismatch(sub.value.text, declared, sub.value.ty)] else [])
    ensures r.value.lit.None? && r.value.text == typeText + " " + sub.value.text
  {
    var text := typeText + " " + sub.value.text;
    if sub.value.lit.Some? then Reduced(Value(declared, None, text), sub.issues)
    else
      var own := if declared != sub.value.ty then [AnnotationMismatch(sub.value.text, declared, sub.value.ty)] else [];
      Reduced(Value(sub.value.ty, None, text), sub.issues + own)
  }

  /** `type_annotated_expr` on a decimal-point literal: the number's type,
      which has no widths, gives way to the declared type. */
  function AnnotatedReal(typeText: string, declared: Ty, tok: string): (r: Reduced)
    ensures r.value.ty == declared && r.value.lit.None? && r.issues == []
  {
    Reduced(Value(declared, None, typeText + " " + tok), [])
  }

  /** `abs(e)`: unsigned with the operand's widths; flagged as non-standard
      only under the truncating rules. */
  function AbsRule(mode: Mode, sub: Reduced): (r: Reduced)
    ensures r.value.ty == Ty(false, sub.value.ty.total, sub.value.ty.frac)
    ensures (mode == Strict ==> r.issues == sub.issues) && (mode == Truncating ==> r.issues == sub.issues + [AbsNotStandard])
  {
    Reduced(Value(Ty(false, sub.value.ty.total, sub.value.ty.frac), None, "abs(" + sub.value.text + ")"),
            sub.issues + (if mode == Truncating then [AbsNotStandard] else []))
  }

  /** `$signed(e)` / `signed(e)`: signed with the operand's widths; the form
      without `$` is flagged. */
  function SignedRule(dollar: bool, sub: Reduced): (r: Reduced)
    ensures r.value.ty == Ty(true, sub.value.ty.total, sub.value.ty.frac)
    ensures r.issues == sub.issues + (if dollar then [] else [SignedWithoutDollar])
  {
    Reduced(Value(Ty(true, sub.value.ty.total, sub.value.ty.frac), None, "$signed(" + sub.value.text + ")"),
            sub.issues + (if dollar then [] else [SignedWithoutDollar]))
  }

  /** `a[hi:lo]`: constant bounds give width hi - lo + 1, which must be
      positive; other bounds are reported and keep the array's width. Sign
      and frac always come from the array. */
  function SliceRule(name: string, base: Ty, hi: Reduced, lo: Reduced): (r: Result<Reduced>)
    ensures r.Ok? ==> r.value.value.ty.signed == base.signed && r.value.value.ty.frac == base.frac
    ensures hi.value.lit.Some? && lo.value.lit.Some? ==>
              var w := hi.value.lit.value - lo.value.lit.value + 1;
              (r.Ok? <==> w > 0) && (r.Err? ==> r.error == InvalidBitSlice(w))
              && (r.Ok? ==> r.value.value.ty.total == w && r.value.issues == hi.issues + lo.issues)
    ensures !(hi.value.lit.Some? && lo.value.lit.Some?) ==>
              r.Ok? && r.value.value.ty.total == base.total
              && r.value.issues == hi.issues + lo.issues + [NonConstantSlice(name, hi.value.ty, lo.value.ty)]
  {
    var text := name + "[" + hi.value.text + ":" + lo.value.text + "]";
    if hi.value.lit.Some? && lo.value.lit.Some? then
      var w := hi.value.lit.value - lo.value.lit.value + 1;
      if w <= 0 then Err(InvalidBitSlice(w))
      else Ok(Reduced(Value(Ty(base.signed, w, base.frac), None, text), hi.issues + lo.issues))
    else
      Ok(Reduced(Value(Ty(base.signed, base.total, base.frac), None, text),
                 hi.issues + lo.issues + [NonConstantSlice(name, hi.value.ty, lo.value.ty)]))
  }

  /** `{n{v}}`: with a literal count, n copies of the value's width; otherwise
      a 32-bit integer. Sign (and frac, with a literal count) come from the value. */
  function ReplicationRule(count: Value, value: Value): (r: Value)
    ensures r.ty.signed == value.ty.signed
    ensures count.lit.Some? ==> r.ty.total == count.lit.value * value.ty.total && r.ty.frac == value.ty.frac
    ensures count.lit.None? ==> r.ty.total == 32 && r.ty.frac == 0
  {
    var text := "{" + count.text + "{" + value.text + "}}";
    if count.lit.Some? then Value(Ty(value.ty.signed, count.lit.value * value.ty.total, value.ty.frac), None, text)
    else Value(Ty(value.ty.signed, 32, 0), None, text)
  }

  /** The elements the concatenation callback keeps: it steps over its
      arguments two at a time, as if every other one were a separator, and
      stops before the last one. The grammar drops the separators before
      the callback runs, so this keeps the elements at even positions
      below the last. */
  function Collected<T>(args: seq<T>): (c: seq<T>)
    ensures |c| == |args| / 2
    ensures forall k :: 0 <= k < |c| ==> c[k] == args[2 * k]
  {
    if |args| <= 1 then [] else [args[0]] + Collected(args[2..])
  }

  function SumWidths(vs: seq<Value>): int {
    if vs == [] then 0 else SumWidths(vs[..|vs| - 1]) + vs[|vs| - 1].ty.total
  }

  /** The type of a concatenation of `vs`: the widths add up; sign and frac
      are the last element's (unsigned, frac 0 when there is none). */
  function ConcatType(vs: seq<Value>): (t: Ty)
    ensures vs != [] ==> t.signed == vs[|vs| - 1].ty.signed && t.frac == vs[|vs| - 1].ty.frac
    ensures vs == [] ==> t == Ty(false, 0, 0)
    ensures t.total == SumWidths(vs)
  {
    if vs == [] then Ty(false, 0, 0)
    else Ty(vs[|vs| - 1].ty.signed, SumWidths(vs), vs[|vs| - 1].ty.frac)
  }

  function Texts(vs: seq<Value>): (ts: seq<string>)
    ensures |ts| == |vs| && forall i :: 0 <= i < |vs| ==> ts[i] == vs[i].text
  {
    if vs == [] then [] else Texts(vs[..|vs| - 1]) + [vs[|vs| - 1].text]
  }

  /** `concatenation`: the type and text of the collected elements. */
  function ConcatRule(args: seq<Value>): (v: Value)
    ensures v.ty == ConcatType(Collected(args)) && v.lit.None?
  {
    var cs := Collected(args);
    Value(ConcatType(cs), None, "{" + Join(", ", Texts(cs)) + "}")
  }

  /** The concatenation callback as the source runs it: a loop that collects
      the elements, then a loop that adds up their widths. */
  method ConcatenationLoop(args: seq<Value>) returns (t: Ty, texts: seq<string>)
    ensures t == ConcatRule(args).ty
    ensures texts == Texts(Collected(args))
  {
    var exprs := CollectLoop(args);
    t, texts := WidthLoop(exprs);
  }

  /** The first loop: take an element, step over the next one, stop before the last. */
  method CollectLoop(args: seq<Value>) returns (exprs: seq<Value>)
    ensures exprs == Collected(args)
  {
    exprs := [];
    var i := 0;
    while i < |args| - 1
      invariant 0 <= i <= |args|
      invariant i == 2 * |exprs| || (i == 2 * |exprs| - 1 && i >= |args| - 1)
      invariant exprs == [] || 2 * |exprs| - 2 < |args| - 1
      invariant forall k :: 0 <= k < |exprs| ==> exprs[k] == args[2 * k]
      decreases |args| - i
    {
      exprs := exprs + [args[i]];
      i := i + 1;
      if i < |args| - 1 {
        i := i + 1;  // the element taken for a separator
      }
    }
    assert |exprs| == |args| / 2;
  }

  /** The second loop: add up the widths, remember the last sign and frac. */
  method WidthLoop(exprs: seq<Value>) returns (t: Ty, texts: seq<string>)
    ensures t == ConcatType(exprs)
    ensures texts == Texts(exprs)
  {
    var total := 0;
    var lastSigned := false;
    var lastFrac := 0;
    texts := [];
    var j := 0;
    while j < |exprs|
      invariant 0 <= j <= |exprs|
      invariant total == SumWidths(exprs[..j])
      invariant lastSigned == (j > 0 && exprs[j - 1].ty.signed)
      invariant lastFrac == (if j > 0 then exprs[j - 1].ty.frac else 0)
      invariant texts == Texts(exprs[..j])
    {
      PrefixStep(exprs, j);
      total := total + exprs[j].ty.total;
      lastSigned := exprs[j].ty.signed;
      lastFrac := exprs[j].ty.frac;
      texts := texts + [exprs[j].text];
      j := j + 1;
    }
    assert exprs[..j] == exprs;
    t := Ty(lastSigned, total, lastFrac);
  }

  lemma PrefixStep(vs: seq<Value>, j: nat)
    requires j < |vs|
    ensures SumWidths(vs[..j + 1]) == SumWidths(vs[..j]) + vs[j].ty.total
    ensures Texts(vs[..j + 1]) == Texts(vs[..j]) + [vs[j].text]
  {
    assert vs[..j + 1][..j] == vs[..j];
  }

  // ---------------------------------------------------------------------
  // The left folds of `expr`, `term` and `factor`

  /** The running result of a fold: type, text and the fold's own advisories. */
  datatype Acc = Acc(ty: Ty, text: string, issues: seq<Issue>)

  /** One operator of a chain applied to the running result. A shift by the
      literal 0 is reported here once more before the shift rule reports it. */
  function ApplyStep(mode: Mode, acc: Acc, op: Op, right: Value): (r: Result<Acc>)
    ensures r.Ok? ==> r.value.text == "(" + acc.text + " " + op.Symbol() + " " + right.text + ")"
    ensures r.Ok? ==> |acc.issues| <= |r.value.issues| && r.value.issues[..|acc.issues|] == acc.issues
    ensures (op == Shl || op == Shr || op == Shrs) ==> (r.Err? <==> right.lit.None?)
    ensures !(op == Shl || op == Shr || op == Shrs) ==> r.Ok?
  {
    var text := "(" + acc.text + " " + op.Symbol() + " " + right.text + ")";
    match op
    case Add => var o := AddTypes(mode, acc.ty, right.ty, op); Ok(Acc(o.ty, text, acc.issues + o.issues))
    case Sub => var o := AddTypes(mode, acc.ty, right.ty, op); Ok(Acc(o.ty, text, acc.issues + o.issues))
    case Mul => Ok(Acc(MulTypes(mode, acc.ty, right.ty), text, acc.issues))
    case Div => Ok(Acc(DivTypes(mode, acc.ty, right.ty), text, acc.issues))
    case _ =>
      var zero := if right.lit == Some(0) then [RedundantShiftBy(op)] else [];
      var o :- ShiftTypes(op, acc.ty, right.lit);
      Ok(Acc(o.ty, text, acc.issues + zero + o.issues))
  }

  /** The fold of the remaining operators, left to right. */
  function FoldFrom(mode: Mode, acc: Acc, ops: seq<Op>, rights: seq<Value>): (r: Result<Acc>)
    requires |ops| == |rights|
    decreases |ops|
  {
    if ops == [] then Ok(acc)
    else
      var next :- ApplyStep(mode, acc, ops[0], rights[0]);
      FoldFrom(mode, next, ops[1..], rights[1..])
  }

  /** The fold loop of the `expr`, `term` and `factor` callbacks. */
  method FoldLoop(mode: Mode, first: Value, ops: seq<Op>, rights: seq<Value>) returns (r: Result<Acc>)
    requires |ops| == |rights|
    ensures r == FoldFrom(mode, Acc(first.ty, first.text, []), ops, rights)
  {
    var acc := Acc(first.ty, first.text, []);
    var i := 0;
    while i < |ops|
      invariant 0 <= i <= |ops|
      invariant FoldFrom(mode, acc, ops[i..], rights[i..]) == FoldFrom(mode, Acc(first.ty, first.text, []), ops, rights)
    {
      var step := ApplyStep(mode, acc, ops[i], rights[i]);
      FoldFromAt(mode, acc, ops, rights, i);
      if step.Err? {
        return Err(step.error);
      }
      acc := step.value;
      i := i + 1;
    }
    return Ok(acc);
  }

  /** The fold from position `i` on takes the step at `i` first. */
  lemma FoldFromAt(mode: Mode, acc: Acc, ops: seq<Op>, rights: seq<Value>, i: nat)
    requires |ops| == |rights| && i < |ops|
    ensures var step := ApplyStep(mode, acc, ops[i], rights[i]);
      FoldFrom(mode, acc, ops[i..], rights[i..])
        == if step.Err? then Err(step.error) else FoldFrom(mode, step.value, ops[i + 1..], rights[i + 1..])
  {
    assert ops[i..][0] == ops[i] && rights[i..][0] == rights[i];
    assert ops[i..][1..] == ops[i + 1..] && rights[i..][1..] == rights[i + 1..];
  }

  function StepOps(steps: seq<Step>): (os: seq<Op>)
    ensures |os| == |steps| && forall i :: 0 <= i < |steps| ==> os[i] == steps[i].op
  {
    if steps == [] then [] else [steps[0].op] + StepOps(steps[1..])
  }

  function Values(rs: seq<Reduced>): (vs: seq<Value>)
    ensures |vs| == |rs| && forall i :: 0 <= i < |rs| ==> vs[i] == rs[i].value
  {
    if rs == [] then [] else [rs[0].value] + Values(rs[1..])
  }

  function AllIssues(rs: seq<Reduced>): seq<Issue> {
    if rs == [] then [] else rs[0].issues + AllIssues(rs[1..])
  }

  /** A chain callback: a single operand passes through unchanged (a literal
      stays a literal); otherwise the fold's type with the operands'
      advisories followed by the fold's own. */
  function ChainRule(mode: Mode, first: Reduced, ops: seq<Op>, rights: seq<Reduced>): (r: Result<Reduced>)
    requires |ops| == |rights|
    ensures ops == [] ==> r == Ok(first)
    ensures ops != [] && r.Ok? ==> r.value.value.lit.None?
  {
    if ops == [] then Ok(first)
    else
      var acc :- FoldFrom(mode, Acc(first.value.ty, first.value.text, []), ops, Values(rights));
      Ok(Reduced(Value(acc.ty, None, acc.text), first.issues + AllIssues(rights) + acc.issues))
  }

  // ---------------------------------------------------------------------
  // Evaluation of a tree

  /** The type of `n`. Children are evaluated left to right before their
      parent's rule, and the first failure ends the evaluation. */
  function Eval(mode: Mode, table: Table, n: Node): (r: Result<Reduced>)
    decreases n, 1, 0
  {
    match n
    case Number(text) =>
      var l :- DecodeNumber(text);
      Ok(Reduced(Value(l.ty, Some(l.value), text), []))
    case Identifier(name) =>
      if name in table then Ok(Reduced(Value(table[name], None, name), []))
      else Err(UnknownIdentifier(name))
    case TypeName(text) =>
      var t :- ParseType(text);
      Ok(Reduced(Value(t, None, text), []))
    case Annotated(text, sub) =>
      var declared :- ParseType(text);
      if sub.Number? && IsRealLiteral(sub.text) then Ok(AnnotatedReal(text, declared, sub.text))
      else
        var s :- Eval(mode, table, sub);
        Ok(AnnotateRule(text, declared, s))
    case Paren(e) =>
      var s :- Eval(mode, table, e);
      Ok(Reduced(Value(s.value.ty, s.value.lit, "(" + s.value.text + ")"), s.issues))
    case Concatenation(parts) =>
      var rs :- EvalParts(mode, table, n, 0);
      Ok(Reduced(ConcatRule(Values(rs)), AllIssues(rs)))
    case Replicate(count, value) =>
      var c :- Eval(mode, table, count);
      var v :- Eval(mode, table, value);
      Ok(Reduced(ConcatRule([ReplicationRule(c.value, v.value)]), c.issues + v.issues))
    case Abs(e) =>
      var s :- Eval(mode, table, e);
      Ok(AbsRule(mode, s))
    case SignedCast(dollar, e) =>
      var s :- Eval(mode, table, e);
      Ok(SignedRule(dollar, s))
    case Index(name, index) =>
      if name !in table then Err(UnknownIdentifier(name))
      else
        var i :- Eval(mode, table, index);
        Ok(Reduced(Value(table[name], None, name + "[" + i.value.text + "]"), i.issues))
    case Slice(name, hi, lo) =>
      if name !in table then Err(UnknownIdentifier(name))
      else
        var h :- Eval(mode, table, hi);
        var l :- Eval(mode, table, lo);
        SliceRule(name, table[name], h, l)
    case Negate(e) =>
      var s :- Eval(mode, table, e);
      Ok(Reduced(Value(s.value.ty, s.value.lit, "~" + s.value.text), s.issues))
    case Chain(_, first, steps) =>
      var f :- Eval(mode, table, first);
      var rs :- EvalSteps(mode, table, n, 0);
      ChainRule(mode, f, StepOps(steps), rs)
  }

  /** The operands of a chain from the `i`-th on. */
  function EvalSteps(mode: Mode, table: Table, n: Node, i: nat): (r: Result<seq<Reduced>>)
    requires n.Chain? && i <= |n.steps|
    ensures r.Ok? ==> |r.value| == |n.steps| - i
    decreases n, 0, |n.steps| - i
  {
    if i == |n.steps| then Ok([])
    else
      var x :- Eval(mode, table, n.steps[i].arg);
      var more :- EvalSteps(mode, table, n, i + 1);
      Ok([x] + more)
  }

  /** The elements of a concatenation from the `i`-th on. */
  function EvalParts(mode: Mode, table: Table, n: Node, i: nat): (r: Result<seq<Reduced>>)
    requires n.Concatenation? && i <= |n.parts|
    ensures r.Ok? ==> |r.value| == |n.parts| - i
    decreases n, 0, |n.parts| - i
  {
    if i == |n.parts| then Ok([])
    else
      var x :- Eval(mode, table, n.parts[i]);
      var more :- EvalParts(mode, table, n, i + 1);
      Ok([x] + more)
  }
}
