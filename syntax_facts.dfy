/** What the parser reads back. A printer for syntax trees of the shape the
    parser builds, and the proof that lexing and parsing its output gives the
    same tree. The shape of those trees is the grammar's reading: `+ -` below
    `* /` below the shifts below the atoms, operators of one level listed left
    to right, a `~` reaching to the end of the enclosing expression, a type
    annotating only a name use or a number. */
module SyntaxFacts {
  import opened Text
  import opened Errors
  import opened FixedPoint
  import opened Syntax

  // ---------------------------------------------------------------------
  // Canonical trees

  /** Additive operators rank 3, multiplicative 2, shifts 1, like their levels. */
  function OpRank(op: Op): nat {
    if op == Add || op == Sub then 3 else if op == Mul || op == Div then 2 else 1
  }

  lemma OpRankLevel(lv: Level, op: Op)
    ensures OpAt(lv, op) <==> OpRank(op) == Rank(lv)
  {
  }

  /** A tree whose printing ends inside a `~`: an operator after it would be
      read as part of the negated expression. */
  predicate Open(n: Node) {
    match n
    case Negate(_) => true
    case Chain(_, first, steps) => if steps == [] then Open(first) else Open(steps[|steps| - 1].arg)
    case _ => false
  }

  /** The unread tokens after a tree: nothing, a closing token, or (unless the
      tree ends in an open `~`) an operator of a looser level than `r`. */
  predicate Follows(r: nat, rest: seq<Tok>, open: bool) {
    rest == [] || rest[0] in {RParen, RBrace, Comma, LBrace, Colon, RBracket}
    || (!open && rest[0].TOp? && OpRank(rest[0].op) > r)
  }

  /** A name the lexer reads back as that identifier. */
  predicate Name(x: string) { x != [] && NextToken(x, false) == Some((TIdent(x), |x|)) }

  /** A literal the lexer reads back as that number. */
  predicate NumberWord(x: string) { x != [] && NextToken(x, false) == Some((TNumber(x), |x|)) }

  /** A type token the lexer reads back as itself. */
  predicate TypeWord(x: string) { x != [] && NextToken(x, false) == Some((TType(x), |x|)) }

  /** `n` is a chain of level `lv` as the parser builds it. */
  predicate Canonical(lv: Level, n: Node)
    decreases n, Rank(lv), 2
  {
    n.Chain? && n.level == lv && CanonicalOperand(lv, n.first) && CanonicalSteps(lv, n, 0)
    && (n.steps != [] ==> !Open(n.first))
  }

  /** The operators and operands from step `i` on: every operator belongs to
      the level, and every operand but the last is closed. */
  predicate CanonicalSteps(lv: Level, n: Node, i: nat)
    requires n.Chain? && i <= |n.steps|
    decreases n, Rank(lv), 1, |n.steps| - i
  {
    i == |n.steps|
    || (OpAt(lv, n.steps[i].op) && CanonicalOperand(lv, n.steps[i].arg)
        && (i + 1 < |n.steps| ==> !Open(n.steps[i].arg)) && CanonicalSteps(lv, n, i + 1))
  }

  /** An operand of level `lv`: a chain of the next level down, or an atom. */
  predicate CanonicalOperand(lv: Level, x: Node)
    decreases x, Rank(lv), 0
  {
    match lv
    case Sum => Canonical(Product, x)
    case Product => Canonical(Shift, x)
    case Shift => CanonicalAtom(x)
  }

  predicate NameUse(x: Node) { x.Identifier? || x.Index? || x.Slice? }

  predicate CanonicalAtom(x: Node)
    decreases x, 0, 3
  {
    match x
    case Number(text) => NumberWord(text)
    case Identifier(name) => Name(name)
    case TypeName(text) => TypeWord(text)
    case Annotated(text, sub) => TypeWord(text) && (sub.Number? || NameUse(sub)) && CanonicalAtom(sub)
    case Paren(e) => Canonical(Sum, e)
    case Concatenation(parts) => parts != [] && CanonicalParts(x, 0)
    case Replicate(c, v) => Canonical(Sum, c) && Canonical(Sum, v)
    case Abs(e) => Canonical(Sum, e)
    case SignedCast(_, e) => Canonical(Sum, e)
    case Index(a, i) => Name(a) && Canonical(Sum, i)
    case Slice(a, hi, lo) => Name(a) && Canonical(Sum, hi) && Canonical(Sum, lo)
    case Negate(e) => Canonical(Sum, e)
    case Chain(_, _, _) => false
  }

  predicate CanonicalParts(x: Node, i: nat)
    requires x.Concatenation? && i <= |x.parts|
    decreases x, 0, 2, |x.parts| - i
  {
    i == |x.parts| || (Canonical(Sum, x.parts[i]) && CanonicalParts(x, i + 1))
  }

  // ---------------------------------------------------------------------
  // Printer

  /** The tokens of a tree: every construct as the grammar spells it. */
  function Tokens(n: Node): seq<Tok>
    decreases n, 3
  {
    match n
    case Number(text) => [TNumber(text)]
    case Identifier(name) => [TIdent(name)] + NameTail(n)
    case TypeName(text) => [TType(text)]
    case Annotated(text, sub) => [TType(text)] + Tokens(sub)
    case Paren(e) => [LParen] + (Tokens(e) + [RParen])
    case Concatenation(parts) =>
      if parts == [] then [LBrace, RBrace] else [LBrace] + (Tokens(parts[0]) + (PartsTokens(n, 1) + [RBrace]))
    case Replicate(c, v) => [LBrace] + (Tokens(c) + ([LBrace] + (Tokens(v) + [RBrace, RBrace])))
    case Abs(e) => [TAbs] + ([LParen] + (Tokens(e) + [RParen]))
    case SignedCast(dollar, e) => [TSigned(dollar)] + ([LParen] + (Tokens(e) + [RParen]))
    case Index(a, _) => [TIdent(a)] + NameTail(n)
    case Slice(a, _, _) => [TIdent(a)] + NameTail(n)
    case Negate(e) => [Tilde] + Tokens(e)
    case Chain(_, first, _) => Tokens(first) + StepsTokens(n, 0)
  }

  /** What follows the name of a name use: nothing, `[ e ]` or `[ e : e ]`. */
  function NameTail(n: Node): seq<Tok>
    decreases n, 2
  {
    match n
    case Index(_, i) => [LBracket] + (Tokens(i) + [RBracket])
    case Slice(_, hi, lo) => [LBracket] + (Tokens(hi) + ([Colon] + (Tokens(lo) + [RBracket])))
    case _ => []
  }

  function StepsTokens(n: Node, i: nat): seq<Tok>
    requires n.Chain? && i <= |n.steps|
    decreases n, 1, |n.steps| - i
  {
    if i == |n.steps| then []
    else [TOp(n.steps[i].op)] + (Tokens(n.steps[i].arg) + StepsTokens(n, i + 1))
  }

  function PartsTokens(n: Node, i: nat): seq<Tok>
    requires n.Concatenation? && i <= |n.parts|
    decreases n, 1, |n.parts| - i
  {
    if i == |n.parts| then []
    else [Comma] + (Tokens(n.parts[i]) + PartsTokens(n, i + 1))
  }

  // ---------------------------------------------------------------------
  // The printed layout of each construct, followed by the unread tokens

  lemma ChainLayout(n: Node, rest: seq<Tok>)
    requires n.Chain?
    ensures Tokens(n) + rest == Tokens(n.first) + (StepsTokens(n, 0) + rest)
    ensures n.steps[0..] == n.steps && Chain(n.level, n.first, n.steps) == n
  {
  }

  lemma StepsLayout(n: Node, i: nat, rest: seq<Tok>)
    requires n.Chain? && i < |n.steps|
    ensures StepsTokens(n, i) + rest
      == [TOp(n.steps[i].op)] + (Tokens(n.steps[i].arg) + (StepsTokens(n, i + 1) + rest))
    ensures [Step(n.steps[i].op, n.steps[i].arg)] + n.steps[i + 1..] == n.steps[i..]
  {
  }

  lemma StepsEndLayout(n: Node, rest: seq<Tok>)
    requires n.Chain?
    ensures StepsTokens(n, |n.steps|) + rest == rest && n.steps[|n.steps|..] == []
  {
  }

  lemma IdentifierLayout(x: Node, rest: seq<Tok>)
    requires x.Identifier?
    ensures Tokens(x) == [TIdent(x.name)] && NameTail(x) + rest == rest
  {
  }

  lemma NameLayout(x: Node, rest: seq<Tok>)
    requires NameUse(x)
    ensures Tokens(x) == [TIdent(NameOf(x))] + NameTail(x)
    ensures Tokens(x) + rest == [TIdent(NameOf(x))] + (NameTail(x) + rest)
  {
  }

  lemma IndexLayout(x: Node, rest: seq<Tok>)
    requires x.Index?
    ensures NameTail(x) == [LBracket] + (Tokens(x.index) + [RBracket])
    ensures NameTail(x) + rest == [LBracket] + (Tokens(x.index) + ([RBracket] + rest))
    ensures Index(NameOf(x), x.index) == x
  {
  }

  lemma SliceLayout(x: Node, rest: seq<Tok>)
    requires x.Slice?
    ensures NameTail(x) == [LBracket] + (Tokens(x.hi) + ([Colon] + (Tokens(x.lo) + [RBracket])))
    ensures NameTail(x) + rest == [LBracket] + (Tokens(x.hi) + ([Colon] + (Tokens(x.lo) + ([RBracket] + rest))))
    ensures Slice(NameOf(x), x.hi, x.lo) == x
  {
  }

  lemma AnnotatedLayout(x: Node, rest: seq<Tok>)
    requires x.Annotated?
    ensures Tokens(x) + rest == [TType(x.typeText)] + (Tokens(x.sub) + rest)
  {
  }

  lemma EnclosedLayout(open: Tok, y: seq<Tok>, close: Tok, rest: seq<Tok>)
    ensures [open] + (y + [close]) + rest == [open] + (y + ([close] + rest))
  {
  }

  lemma CallLayout(x: Node, rest: seq<Tok>)
    requires x.Abs? || x.SignedCast?
    ensures x.Abs? ==> Tokens(x) + rest == [TAbs] + ([LParen] + (Tokens(x.inner) + [RParen]) + rest)
    ensures x.SignedCast? ==> Tokens(x) + rest == [TSigned(x.dollar)] + ([LParen] + (Tokens(x.inner) + [RParen]) + rest)
  {
  }

  lemma NegateLayout(x: Node, rest: seq<Tok>)
    requires x.Negate?
    ensures Tokens(x) + rest == [Tilde] + (Tokens(x.inner) + rest)
  {
  }

  lemma ReplicateLayout(x: Node, rest: seq<Tok>)
    requires x.Replicate?
    ensures Tokens(x) + rest
      == [LBrace] + (Tokens(x.count) + ([LBrace] + (Tokens(x.value) + ([RBrace, RBrace] + rest))))
  {
  }

  lemma ConcatenationLayout(x: Node, rest: seq<Tok>)
    requires x.Concatenation? && x.parts != []
    ensures var after := PartsTokens(x, 1) + ([RBrace] + rest);
      (after[0] == Comma || after[0] == RBrace)
      && Tokens(x) + rest == [LBrace] + (Tokens(x.parts[0]) + after)
      && [x.parts[0]] + x.parts[1..] == x.parts
  {
  }

  lemma PartsLayout(x: Node, i: nat, rest: seq<Tok>)
    requires x.Concatenation? && i < |x.parts|
    ensures var after := PartsTokens(x, i + 1) + ([RBrace] + rest);
      (after[0] == Comma || after[0] == RBrace)
      && PartsTokens(x, i) + ([RBrace] + rest) == [Comma] + (Tokens(x.parts[i]) + after)
      && [x.parts[i]] + x.parts[i + 1..] == x.parts[i..]
  {
  }

  lemma PartsEndLayout(x: Node, rest: seq<Tok>)
    requires x.Concatenation?
    ensures PartsTokens(x, |x.parts|) + ([RBrace] + rest) == [RBrace] + rest
    ensures x.parts[|x.parts|..] == []
  {
  }

  lemma TwoBraces()
    ensures [RBrace] + [RBrace] == [RBrace, RBrace]
  {
  }

  // ---------------------------------------------------------------------
  // One step of each parser function, on any tokens

  lemma ChainStep(lv: Level, ts: seq<Tok>, first: Node, after: seq<Tok>, steps: seq<Step>, rest: seq<Tok>)
    requires ParseOperand(lv, ts) == Ok((first, after))
    requires ParseSteps(lv, after) == Ok((steps, rest))
    ensures ParseChain(lv, ts) == Ok((Chain(lv, first, steps), rest))
  {
  }

  lemma StepsStop(lv: Level, ts: seq<Tok>)
    requires ts == [] || !ts[0].TOp? || !OpAt(lv, ts[0].op)
    ensures ParseSteps(lv, ts) == Ok(([], ts))
  {
  }

  lemma StepsCons(lv: Level, op: Op, ts: seq<Tok>, arg: Node, after: seq<Tok>, more: seq<Step>, rest: seq<Tok>)
    requires OpAt(lv, op)
    requires ParseOperand(lv, ts) == Ok((arg, after))
    requires ParseSteps(lv, after) == Ok((more, rest))
    ensures ParseSteps(lv, [TOp(op)] + ts) == Ok(([Step(op, arg)] + more, rest))
  {
    assert ([TOp(op)] + ts)[1..] == ts;
  }

  lemma AtomParen(ts: seq<Tok>, e: Node, rest: seq<Tok>)
    requires ParseChain(Sum, ts) == Ok((e, [RParen] + rest))
    ensures ParseAtom([LParen] + ts) == Ok((Paren(e), rest))
  {
    assert ([LParen] + ts)[1..] == ts;
    assert ([RParen] + rest)[1..] == rest;
  }

  lemma AtomNegate(ts: seq<Tok>, e: Node, rest: seq<Tok>)
    requires ParseChain(Sum, ts) == Ok((e, rest))
    ensures ParseAtom([Tilde] + ts) == Ok((Negate(e), rest))
  {
    assert ([Tilde] + ts)[1..] == ts;
  }

  lemma CallArgument(ts: seq<Tok>, e: Node, rest: seq<Tok>)
    requires ParseChain(Sum, ts) == Ok((e, [RParen] + rest))
    ensures ParseCallArgument([LParen] + ts) == Ok((e, rest))
  {
    assert ([LParen] + ts)[1..] == ts;
    assert ([RParen] + rest)[1..] == rest;
  }

  lemma AtomAbs(ts: seq<Tok>, e: Node, rest: seq<Tok>)
    requires ParseCallArgument(ts) == Ok((e, rest))
    ensures ParseAtom([TAbs] + ts) == Ok((Abs(e), rest))
  {
    assert ([TAbs] + ts)[1..] == ts;
  }

  lemma AtomSigned(dollar: bool, ts: seq<Tok>, e: Node, rest: seq<Tok>)
    requires ParseCallArgument(ts) == Ok((e, rest))
    ensures ParseAtom([TSigned(dollar)] + ts) == Ok((SignedCast(dollar, e), rest))
  {
    assert ([TSigned(dollar)] + ts)[1..] == ts;
  }

  lemma AtomReplicate(ts: seq<Tok>, c: Node, ts2: seq<Tok>, v: Node, rest: seq<Tok>)
    requires ParseChain(Sum, ts) == Ok((c, [LBrace] + ts2))
    requires ParseChain(Sum, ts2) == Ok((v, [RBrace, RBrace] + rest))
    ensures ParseAtom([LBrace] + ts) == Ok((Replicate(c, v), rest))
  {
    assert ([LBrace] + ts)[1..] == ts;
    assert ([LBrace] + ts2)[1..] == ts2;
    assert ([RBrace, RBrace] + rest)[1..] == [RBrace] + rest;
    assert ([RBrace] + rest)[1..] == rest;
  }

  lemma AtomConcatenation(ts: seq<Tok>, e: Node, after: seq<Tok>, more: seq<Node>, rest: seq<Tok>)
    requires ParseChain(Sum, ts) == Ok((e, after)) && !Next(after, LBrace)
    requires ParseElements(after) == Ok((more, rest))
    ensures ParseAtom([LBrace] + ts) == Ok((Concatenation([e] + more), rest))
  {
    assert ([LBrace] + ts)[1..] == ts;
  }

  lemma ElementsCons(ts: seq<Tok>, e: Node, after: seq<Tok>, more: seq<Node>, rest: seq<Tok>)
    requires ParseChain(Sum, ts) == Ok((e, after))
    requires ParseElements(after) == Ok((more, rest))
    ensures ParseElements([Comma] + ts) == Ok(([e] + more, rest))
  {
    assert ([Comma] + ts)[1..] == ts;
  }

  lemma ElementsEnd(rest: seq<Tok>)
    ensures ParseElements([RBrace] + rest) == Ok(([], rest))
  {
    assert ([RBrace] + rest)[1..] == rest;
  }

  lemma NameIndex(name: string, ts: seq<Tok>, e: Node, rest: seq<Tok>)
    requires ParseChain(Sum, ts) == Ok((e, [RBracket] + rest))
    ensures ParseNameUse(name, [LBracket] + ts) == Ok((Index(name, e), rest))
  {
    assert ([LBracket] + ts)[1..] == ts;
    assert ([RBracket] + rest)[1..] == rest;
  }

  lemma NameSlice(name: string, ts: seq<Tok>, hi: Node, ts2: seq<Tok>, lo: Node, rest: seq<Tok>)
    requires ParseChain(Sum, ts) == Ok((hi, [Colon] + ts2))
    requires ParseChain(Sum, ts2) == Ok((lo, [RBracket] + rest))
    ensures ParseNameUse(name, [LBracket] + ts) == Ok((Slice(name, hi, lo), rest))
  {
    assert ([LBracket] + ts)[1..] == ts;
    assert ([Colon] + ts2)[1..] == ts2;
    assert ([RBracket] + rest)[1..] == rest;
  }

  // ---------------------------------------------------------------------
  // The parser reads the printed tokens back

  lemma {:induction false} ChainReadBack(lv: Level, n: Node, rest: seq<Tok>)
    requires Canonical(lv, n) && Follows(Rank(lv), rest, Open(n))
    ensures ParseChain(lv, Tokens(n) + rest) == Ok((n, rest))
    decreases n, Rank(lv), 2
  {
    var tail := StepsTokens(n, 0) + rest;
    if n.steps != [] {
      OpRankLevel(lv, n.steps[0].op);
    }
    OperandReadBack(lv, n.first, tail);
    StepsReadBack(lv, n, 0, rest);
    ChainLayout(n, rest);
    ChainStep(lv, Tokens(n.first) + tail, n.first, tail, n.steps, rest);
  }

  lemma {:induction false} OperandReadBack(lv: Level, x: Node, rest: seq<Tok>)
    requires CanonicalOperand(lv, x) && Follows(Rank(lv) - 1, rest, Open(x))
    ensures ParseOperand(lv, Tokens(x) + rest) == Ok((x, rest))
    decreases x, Rank(lv), 0
  {
    match lv
    case Sum => ChainReadBack(Product, x, rest);
    case Product => ChainReadBack(Shift, x, rest);
    case Shift => AtomReadBack(x, rest);
  }

  /** The open end of the last operand from step `i` on. */
  predicate OpenFrom(n: Node, i: nat)
    requires n.Chain?
  {
    i < |n.steps| && Open(n.steps[|n.steps| - 1].arg)
  }

  lemma {:induction false} StepsReadBack(lv: Level, n: Node, i: nat, rest: seq<Tok>)
    requires n.Chain? && i <= |n.steps| && CanonicalSteps(lv, n, i)
    requires Follows(Rank(lv), rest, OpenFrom(n, i))
    ensures ParseSteps(lv, StepsTokens(n, i) + rest) == Ok((n.steps[i..], rest))
    decreases n, Rank(lv), 1, |n.steps| - i
  {
    if i == |n.steps| {
      StepsDone(lv, n, rest);
    } else {
      var s := n.steps[i];
      var after := StepsTokens(n, i + 1) + rest;
      if i + 1 < |n.steps| {
        OpRankLevel(lv, n.steps[i + 1].op);
      }
      OperandReadBack(lv, s.arg, after);
      StepsReadBack(lv, n, i + 1, rest);
      StepsCons(lv, s.op, Tokens(s.arg) + after, s.arg, after, n.steps[i + 1..], rest);
      StepsLayout(n, i, rest);
    }
  }

  /** No operator is left: the list ends before `rest`. */
  lemma StepsDone(lv: Level, n: Node, rest: seq<Tok>)
    requires n.Chain? && Follows(Rank(lv), rest, false)
    ensures ParseSteps(lv, StepsTokens(n, |n.steps|) + rest) == Ok((n.steps[|n.steps|..], rest))
  {
    StepsEndLayout(n, rest);
    if rest != [] && rest[0].TOp? {
      OpRankLevel(lv, rest[0].op);
    }
    StepsStop(lv, rest);
  }

  lemma {:induction false} AtomReadBack(x: Node, rest: seq<Tok>)
    requires CanonicalAtom(x) && Follows(0, rest, Open(x))
    ensures ParseAtom(Tokens(x) + rest) == Ok((x, rest))
    decreases x, 0, 4
  {
    match x
    case Number(_) => LeafReadBack(x, rest);
    case TypeName(_) => LeafReadBack(x, rest);
    case Identifier(_) => NameAtomReadBack(x, rest);
    case Index(_, _) => NameAtomReadBack(x, rest);
    case Slice(_, _, _) => NameAtomReadBack(x, rest);
    case Annotated(_, _) => AnnotatedReadBack(x, rest);
    case Paren(_) => ParenReadBack(x, rest);
    case Concatenation(_) => ConcatenationReadBack(x, rest);
    case Replicate(_, _) => ReplicateReadBack(x, rest);
    case Abs(_) => CallReadBack(x, rest);
    case SignedCast(_, _) => CallReadBack(x, rest);
    case Negate(_) => NegateReadBack(x, rest);
  }

  lemma LeafReadBack(x: Node, rest: seq<Tok>)
    requires x.Number? || x.TypeName?
    requires Follows(0, rest, false)
    ensures ParseAtom(Tokens(x) + rest) == Ok((x, rest))
  {
    assert (Tokens(x) + rest)[1..] == rest;
  }

  lemma {:induction false} NameAtomReadBack(x: Node, rest: seq<Tok>)
    requires NameUse(x) && CanonicalAtom(x) && Follows(0, rest, false)
    ensures ParseAtom(Tokens(x) + rest) == Ok((x, rest))
    decreases x, 0, 3
  {
    NameUseReadBack(x, rest);
    IdentAtom(NameOf(x), NameTail(x) + rest);
    NameLayout(x, rest);
  }

  lemma {:induction false} AnnotatedReadBack(x: Node, rest: seq<Tok>)
    requires x.Annotated? && CanonicalAtom(x) && Follows(0, rest, false)
    ensures ParseAtom(Tokens(x) + rest) == Ok((x, rest))
    decreases x, 0, 3
  {
    if x.sub.Number? {
      AnnotatedLayout(x, rest);
      TypedNumberAtom(x.typeText, x.sub.text, rest);
    } else {
      AnnotatedNameReadBack(x, rest);
    }
  }

  lemma {:induction false} AnnotatedNameReadBack(x: Node, rest: seq<Tok>)
    requires x.Annotated? && NameUse(x.sub) && CanonicalAtom(x.sub) && Follows(0, rest, false)
    ensures ParseAtom(Tokens(x) + rest) == Ok((x, rest))
    decreases x, 0, 2
  {
    var sub := x.sub;
    NameUseReadBack(sub, rest);
    AnnotatedLayout(x, rest);
    NameLayout(sub, rest);
    TypedNameAtom(x.typeText, NameOf(sub), NameTail(sub) + rest, sub, rest);
  }

  lemma TypedNumberAtom(text: string, number: string, rest: seq<Tok>)
    ensures ParseAtom([TType(text)] + ([TNumber(number)] + rest)) == Ok((Annotated(text, Number(number)), rest))
  {
    var ts := [TType(text)] + ([TNumber(number)] + rest);
    assert ts[1..] == [TNumber(number)] + rest;
    assert ts[2..] == rest;
  }

  lemma TypedNameAtom(text: string, name: string, tail: seq<Tok>, sub: Node, rest: seq<Tok>)
    requires ParseNameUse(name, tail) == Ok((sub, rest))
    ensures ParseAtom([TType(text)] + ([TIdent(name)] + tail)) == Ok((Annotated(text, sub), rest))
  {
    var ts := [TType(text)] + ([TIdent(name)] + tail);
    assert ts[1..] == [TIdent(name)] + tail;
    assert ts[2..] == tail;
  }

  lemma {:induction false} ParenReadBack(x: Node, rest: seq<Tok>)
    requires x.Paren? && CanonicalAtom(x) && Follows(0, rest, false)
    ensures ParseAtom(Tokens(x) + rest) == Ok((x, rest))
    decreases x, 0, 3
  {
    ChainReadBack(Sum, x.inner, [RParen] + rest);
    AtomParen(Tokens(x.inner) + ([RParen] + rest), x.inner, rest);
    EnclosedLayout(LParen, Tokens(x.inner), RParen, rest);
  }

  lemma {:induction false} ConcatenationReadBack(x: Node, rest: seq<Tok>)
    requires x.Concatenation? && CanonicalAtom(x) && Follows(0, rest, false)
    ensures ParseAtom(Tokens(x) + rest) == Ok((x, rest))
    decreases x, 0, 3
  {
    var parts := x.parts;
    var after := PartsTokens(x, 1) + ([RBrace] + rest);
    ConcatenationLayout(x, rest);
    ChainReadBack(Sum, parts[0], after);
    ElementsReadBack(x, 1, rest);
    AtomConcatenation(Tokens(parts[0]) + after, parts[0], after, parts[1..], rest);
  }

  lemma {:induction false} ReplicateReadBack(x: Node, rest: seq<Tok>)
    requires x.Replicate? && CanonicalAtom(x) && Follows(0, rest, false)
    ensures ParseAtom(Tokens(x) + rest) == Ok((x, rest))
    decreases x, 0, 3
  {
    var inner := Tokens(x.value) + ([RBrace, RBrace] + rest);
    ChainReadBack(Sum, x.count, [LBrace] + inner);
    ChainReadBack(Sum, x.value, [RBrace, RBrace] + rest);
    AtomReplicate(Tokens(x.count) + ([LBrace] + inner), x.count, inner, x.value, rest);
    ReplicateLayout(x, rest);
  }

  lemma {:induction false} CallReadBack(x: Node, rest: seq<Tok>)
    requires (x.Abs? || x.SignedCast?) && CanonicalAtom(x) && Follows(0, rest, false)
    ensures ParseAtom(Tokens(x) + rest) == Ok((x, rest))
    decreases x, 0, 3
  {
    var arg := [LParen] + (Tokens(x.inner) + [RParen]) + rest;
    CallArgumentReadBack(x.inner, rest);
    CallLayout(x, rest);
    if x.Abs? {
      AtomAbs(arg, x.inner, rest);
    } else {
      AtomSigned(x.dollar, arg, x.inner, rest);
    }
  }

  lemma {:induction false} NegateReadBack(x: Node, rest: seq<Tok>)
    requires x.Negate? && CanonicalAtom(x) && Follows(0, rest, true)
    ensures ParseAtom(Tokens(x) + rest) == Ok((x, rest))
    decreases x, 0, 3
  {
    ChainReadBack(Sum, x.inner, rest);
    AtomNegate(Tokens(x.inner) + rest, x.inner, rest);
    NegateLayout(x, rest);
  }

  lemma IdentAtom(name: string, tail: seq<Tok>)
    ensures ParseAtom([TIdent(name)] + tail) == ParseNameUse(name, tail)
  {
    assert ([TIdent(name)] + tail)[1..] == tail;
  }

  function NameOf(x: Node): string
    requires NameUse(x)
  {
    match x
    case Identifier(name) => name
    case Index(a, _) => a
    case Slice(a, _, _) => a
  }

  lemma {:induction false} NameUseReadBack(x: Node, rest: seq<Tok>)
    requires NameUse(x) && CanonicalAtom(x) && Follows(0, rest, false)
    ensures ParseNameUse(NameOf(x), NameTail(x) + rest) == Ok((x, rest))
    decreases x, 0, 2
  {
    match x
    case Identifier(_) => IdentifierLayout(x, rest);
    case Index(_, _) => IndexReadBack(x, rest);
    case Slice(_, _, _) => SliceReadBack(x, rest);
  }

  lemma {:induction false} IndexReadBack(x: Node, rest: seq<Tok>)
    requires x.Index? && NameUse(x) && CanonicalAtom(x) && Follows(0, rest, false)
    ensures ParseNameUse(NameOf(x), NameTail(x) + rest) == Ok((x, rest))
    decreases x, 0, 1
  {
    ChainReadBack(Sum, x.index, [RBracket] + rest);
    IndexLayout(x, rest);
    NameIndex(NameOf(x), Tokens(x.index) + ([RBracket] + rest), x.index, rest);
  }

  lemma {:induction false} SliceReadBack(x: Node, rest: seq<Tok>)
    requires x.Slice? && NameUse(x) && CanonicalAtom(x) && Follows(0, rest, false)
    ensures ParseNameUse(NameOf(x), NameTail(x) + rest) == Ok((x, rest))
    decreases x, 0, 1
  {
    var low := Tokens(x.lo) + ([RBracket] + rest);
    ChainReadBack(Sum, x.hi, [Colon] + low);
    ChainReadBack(Sum, x.lo, [RBracket] + rest);
    SliceLayout(x, rest);
    NameSlice(NameOf(x), Tokens(x.hi) + ([Colon] + low), x.hi, low, x.lo, rest);
  }

  lemma {:induction false} CallArgumentReadBack(e: Node, rest: seq<Tok>)
    requires Canonical(Sum, e)
    ensures ParseCallArgument([LParen] + (Tokens(e) + [RParen]) + rest) == Ok((e, rest))
    decreases e, 4
  {
    ChainReadBack(Sum, e, [RParen] + rest);
    CallArgument(Tokens(e) + ([RParen] + rest), e, rest);
    EnclosedLayout(LParen, Tokens(e), RParen, rest);
  }

  lemma {:induction false} ElementsReadBack(x: Node, i: nat, rest: seq<Tok>)
    requires x.Concatenation? && 1 <= i <= |x.parts| && CanonicalParts(x, i)
    ensures ParseElements(PartsTokens(x, i) + ([RBrace] + rest)) == Ok((x.parts[i..], rest))
    decreases x, 0, 2, |x.parts| - i
  {
    if i < |x.parts| {
      var after := PartsTokens(x, i + 1) + ([RBrace] + rest);
      PartsLayout(x, i, rest);
      ChainReadBack(Sum, x.parts[i], after);
      ElementsReadBack(x, i + 1, rest);
      ElementsCons(Tokens(x.parts[i]) + after, x.parts[i], after, x.parts[i + 1..], rest);
    } else {
      PartsEndLayout(x, rest);
      ElementsEnd(rest);
    }
  }

  // ---------------------------------------------------------------------
  // The lexer reads the rendered text back

  /** How a token is written. */
  function TokText(t: Tok): string {
    match t
    case TType(text) => text
    case TIdent(name) => name
    case TNumber(text) => text
    case TAbs => "abs"
    case TSigned(dollar) => if dollar then "$signed" else "signed"
    case TOp(op) => op.Symbol()
    case LParen => "("
    case RParen => ")"
    case LBrace => "{"
    case RBrace => "}"
    case Comma => ","
    case LBracket => "["
    case RBracket => "]"
    case Colon => ":"
    case Tilde => "~"
  }

  /** The tokens written out, each followed by a blank. */
  function Render(ts: seq<Tok>): string {
    if ts == [] then "" else TokText(ts[0]) + (" " + Render(ts[1..]))
  }

  /** `t` is read back from its own text, in the lexer state `afterType`. */
  predicate ReadsBack(t: Tok, afterType: bool) {
    TokText(t) != [] && NextToken(TokText(t), afterType) == Some((t, |TokText(t)|))
  }

  /** Every token is read back, each in the state the one before it leaves. */
  predicate Spelled(ts: seq<Tok>, afterType: bool) {
    ts == [] || (ReadsBack(ts[0], afterType) && Spelled(ts[1..], ts[0].TType?))
  }

  lemma {:induction false} SpanBeforeBlank(x: string, tail: string, P: char -> bool)
    requires tail != [] && !P(tail[0])
    ensures Span(x + tail, P) == Span(x, P)
    decreases |x|
  {
    if x != [] {
      assert (x + tail)[1..] == x[1..] + tail;
      SpanBeforeBlank(x[1..], tail, P);
    }
  }

  /** The span of `P` from `k` on does not see past `x` when a blank follows. */
  lemma SpanFromBeforeBlank(x: string, tail: string, k: nat, P: char -> bool)
    requires k <= |x| && tail != [] && tail[0] == ' ' && !P(' ')
    ensures Span((x + tail)[k..], P) == Span(x[k..], P)
  {
    assert (x + tail)[k..] == x[k..] + tail;
    SpanBeforeBlank(x[k..], tail, P);
  }

  lemma StartsBeforeBlank(x: string, tail: string, p: string)
    requires tail != [] && tail[0] == ' ' && forall i :: 0 <= i < |p| ==> p[i] != ' '
    ensures StartsWith(x + tail, p) <==> StartsWith(x, p)
  {
    if |p| <= |x| {
      assert (x + tail)[..|p|] == x[..|p|];
    } else {
      assert p[|x|] != ' ';
      assert |p| <= |x + tail| ==> (x + tail)[..|p|][|x|] == ' ';
    }
  }

  lemma TypeTokenBeforeBlank(x: string, tail: string)
    requires x != [] && tail != [] && tail[0] == ' '
    ensures TypeTokenLen(x + tail) == TypeTokenLen(x)
  {
    var s := x + tail;
    if s[0] == 'S' || s[0] == 'U' {
      SpanFromBeforeBlank(x, tail, 1, IsDigit);
      var d1 := Span(x[1..], IsDigit);
      if 1 + d1 < |x| {
        SpanFromBeforeBlank(x, tail, 2 + d1, IsDigit);
      } else if d1 != 0 {
        assert s[1 + d1] == ' ';
      }
    }
  }

  lemma IdentBeforeBlank(x: string, tail: string)
    requires x != [] && tail != [] && tail[0] == ' '
    ensures IdentLen(x + tail) == IdentLen(x)
  {
    SpanFromBeforeBlank(x, tail, 1, IsWordChar);
  }

  lemma SizedBeforeBlank(x: string, tail: string)
    requires x != [] && tail != [] && tail[0] == ' '
    ensures SizedLen(x + tail) == SizedLen(x)
  {
    SpanBeforeBlank(x, tail, IsDigit);
    var d := Span(x, IsDigit);
    if d != 0 {
      if d + 1 < |x| {
        SizedFormatBeforeBlank(x, tail, d);
      } else if d + 1 == |x| {
        assert (x + tail)[d + 1] == ' ';
      } else {
        assert (x + tail)[d] == ' ';
      }
    }
  }

  /** The same, once the digits of the width are followed by two more characters of `x`. */
  lemma SizedFormatBeforeBlank(x: string, tail: string, d: nat)
    requires tail != [] && tail[0] == ' '
    requires 0 < d && d + 1 < |x| && d == Span(x, IsDigit) && d == Span(x + tail, IsDigit)
    ensures SizedLen(x + tail) == SizedLen(x)
  {
    var s := x + tail;
    assert s[d] == x[d];
    BaseBeforeBlank(x, tail, d + 1);
    var f := BaseLen(x, d + 1);
    if f != 0 {
      SpanFromBeforeBlank(x, tail, d + 1 + f, IsWordChar);
    }
  }

  lemma BaseBeforeBlank(x: string, tail: string, k: nat)
    requires tail != [] && tail[0] == ' ' && k < |x|
    ensures BaseLen(x + tail, k) == BaseLen(x, k)
  {
    var s := x + tail;
    assert s[k] == x[k];
    if k + 1 < |x| {
      assert s[k + 1] == x[k + 1];
    } else {
      assert s[k + 1] == ' ';
    }
  }

  lemma DecimalBeforeBlank(x: string, tail: string)
    requires x != [] && tail != [] && tail[0] == ' '
    ensures DecimalLen(x + tail) == DecimalLen(x)
  {
    var s := x + tail;
    SpanBeforeBlank(x, tail, IsDigit);
    var d := Span(x, IsDigit);
    if d != 0 {
      if d + 1 < |x| {
        assert s[d] == x[d] && s[d + 1] == x[d + 1];
        SpanFromBeforeBlank(x, tail, d + 1, IsDigit);
      } else if d + 1 == |x| {
        assert s[d + 1] == ' ';
      } else {
        assert s[d] == ' ';
      }
    }
  }

  /** A blank ends a token: the lexer reads the same token from `x` followed
      by a blank as from `x` alone. */
  lemma NextTokenBeforeBlank(x: string, tail: string, afterType: bool)
    requires x != [] && tail != [] && tail[0] == ' '
    ensures NextToken(x + tail, afterType) == NextToken(x, afterType)
  {
    var s := x + tail;
    StartsBeforeBlank(x, tail, "abs");
    StartsBeforeBlank(x, tail, "$signed");
    StartsBeforeBlank(x, tail, "signed");
    if !afterType && (StartsWith(x, "abs") || StartsWith(x, "$signed") || StartsWith(x, "signed")) {
    } else {
      TypeTokenBeforeBlank(x, tail);
      if !afterType && TypeTokenLen(x) > 0 {
        assert s[..TypeTokenLen(x)] == x[..TypeTokenLen(x)];
      } else {
        LaterTokenBeforeBlank(x, tail, afterType);
      }
    }
  }

  /** The same, once no keyword and no type token applies. */
  lemma LaterTokenBeforeBlank(x: string, tail: string, afterType: bool)
    requires x != [] && tail != [] && tail[0] == ' '
    requires afterType || (!StartsWith(x + tail, "abs") && !StartsWith(x + tail, "$signed")
      && !StartsWith(x + tail, "signed") && TypeTokenLen(x + tail) == 0)
    requires afterType || (!StartsWith(x, "abs") && !StartsWith(x, "$signed")
      && !StartsWith(x, "signed") && TypeTokenLen(x) == 0)
    ensures NextToken(x + tail, afterType) == NextToken(x, afterType)
  {
    var s := x + tail;
    IdentBeforeBlank(x, tail);
    if IdentLen(x) > 0 {
      assert s[..IdentLen(x)] == x[..IdentLen(x)];
    } else {
      SizedBeforeBlank(x, tail);
      if SizedLen(x) > 0 {
        assert s[..SizedLen(x)] == x[..SizedLen(x)];
      } else {
        DecimalBeforeBlank(x, tail);
        if DecimalLen(x) > 0 {
          assert s[..DecimalLen(x)] == x[..DecimalLen(x)];
        } else {
          OperatorBeforeBlank(x, tail, afterType);
        }
      }
    }
  }

  /** The same, for operators and punctuation. */
  lemma OperatorBeforeBlank(x: string, tail: string, afterType: bool)
    requires x != [] && tail != [] && tail[0] == ' '
    requires afterType || (!StartsWith(x + tail, "abs") && !StartsWith(x + tail, "$signed")
      && !StartsWith(x + tail, "signed") && TypeTokenLen(x + tail) == 0)
    requires afterType || (!StartsWith(x, "abs") && !StartsWith(x, "$signed")
      && !StartsWith(x, "signed") && TypeTokenLen(x) == 0)
    requires IdentLen(x + tail) == 0 && SizedLen(x + tail) == 0 && DecimalLen(x + tail) == 0
    requires IdentLen(x) == 0 && SizedLen(x) == 0 && DecimalLen(x) == 0
    ensures NextToken(x + tail, afterType) == NextToken(x, afterType)
  {
    StartsBeforeBlank(x, tail, ">>>");
    StartsBeforeBlank(x, tail, "<<");
    StartsBeforeBlank(x, tail, ">>");
    assert (x + tail)[0] == x[0];
  }

  /** No token starts with a blank. */
  lemma BlankIsNoToken(s: string, afterType: bool)
    requires s != [] && IsBlank(s[0])
    ensures NextToken(s, afterType) == None
  {
    NoWordAt(s);
    NoShiftAt(s);
  }

  lemma {:induction false} LexRender(ts: seq<Tok>, afterType: bool)
    requires Spelled(ts, afterType)
    ensures Lex(Render(ts), afterType) == Ok(ts)
    decreases |ts|
  {
    if ts != [] {
      LexRender(ts[1..], ts[0].TType?);
      LexRenderHead(ts, afterType);
    }
  }

  /** The lexer reads the first rendered token, then the rest as before. */
  lemma LexRenderHead(ts: seq<Tok>, afterType: bool)
    requires ts != [] && ReadsBack(ts[0], afterType)
    requires Lex(Render(ts[1..]), ts[0].TType?) == Ok(ts[1..])
    ensures Lex(Render(ts), afterType) == Ok(ts)
  {
    var x := TokText(ts[0]);
    var r := Render(ts[1..]);
    NextTokenBeforeBlank(x, " " + r, afterType);
    if IsBlank(x[0]) {
      BlankIsNoToken(x, afterType);
    }
    LexBlank(r, ts[0].TType?);
    LexStep(x, " " + r, afterType, ts[0], ts[1..]);
    assert [ts[0]] + ts[1..] == ts;
  }

  /** The lexer skips a blank. */
  lemma LexBlank(r: string, afterType: bool)
    ensures Lex(" " + r, afterType) == Lex(r, afterType)
  {
    assert (" " + r)[1..] == r;
  }

  /** One step of the lexer: a token `x` that the lexer reads whole, then the rest. */
  lemma LexStep(x: string, tail: string, afterType: bool, tok: Tok, rest: seq<Tok>)
    requires x != [] && !IsBlank(x[0]) && NextToken(x + tail, afterType) == Some((tok, |x|))
    requires Lex(tail, tok.TType?) == Ok(rest)
    ensures Lex(x + tail, afterType) == Ok([tok] + rest)
  {
    assert (x + tail)[0] == x[0];
    assert (x + tail)[|x|..] == tail;
  }

  // ---------------------------------------------------------------------
  // A canonical tree's tokens are all read back

  /** No keyword and no type token: what the lexer reads the same way right
      after a type token. */
  predicate PlainStart(ts: seq<Tok>) { ts == [] || !(ts[0].TType? || ts[0].TAbs? || ts[0].TSigned?) }

  /** The lexer state after `ts`, starting in state `afterType`. */
  function EndsType(ts: seq<Tok>, afterType: bool): bool {
    if ts == [] then afterType else ts[|ts| - 1].TType?
  }

  lemma ReadsBackAfterType(t: Tok)
    requires ReadsBack(t, false) && PlainStart([t])
    ensures ReadsBack(t, true)
  {
  }

  lemma {:induction false} SpelledJoin(x: seq<Tok>, y: seq<Tok>, afterType: bool)
    requires Spelled(x, afterType) && Spelled(y, false) && (PlainStart(y) || !EndsType(x, afterType))
    ensures Spelled(x + y, afterType)
    decreases |x|, 1
  {
    if x == [] {
      SpelledStart(y, afterType);
      assert x + y == y;
    } else {
      SpelledJoinCons(x, y, afterType);
    }
  }

  lemma {:induction false} SpelledJoinCons(x: seq<Tok>, y: seq<Tok>, afterType: bool)
    requires x != [] && Spelled(x, afterType) && Spelled(y, false) && (PlainStart(y) || !EndsType(x, afterType))
    ensures Spelled(x + y, afterType)
    decreases |x|, 0
  {
    var h, z := x[0], x[1..];
    SpelledTail(x, afterType);
    SpelledJoin(z, y, h.TType?);
    SpelledCons(h, z + y, afterType);
    ConsAppend(x, y);
  }

  lemma ConsAppend<T>(x: seq<T>, y: seq<T>)
    requires x != []
    ensures x + y == [x[0]] + (x[1..] + y)
  {
  }

  lemma SpelledTail(x: seq<Tok>, afterType: bool)
    requires x != [] && Spelled(x, afterType)
    ensures ReadsBack(x[0], afterType) && Spelled(x[1..], x[0].TType?)
    ensures EndsType(x[1..], x[0].TType?) == EndsType(x, afterType)
  {
  }

  /** What is spelled from the start is spelled after any token but a type. */
  lemma SpelledStart(y: seq<Tok>, afterType: bool)
    requires Spelled(y, false) && (PlainStart(y) || !afterType)
    ensures Spelled(y, afterType)
  {
    if afterType && y != [] {
      ReadsBackAfterType(y[0]);
    }
  }

  lemma SpelledCons(h: Tok, z: seq<Tok>, afterType: bool)
    requires ReadsBack(h, afterType) && Spelled(z, h.TType?)
    ensures Spelled([h] + z, afterType)
  {
    assert ([h] + z)[1..] == z;
  }

  /** A text whose first character starts no word, no number and no
      `$signed` is neither a keyword nor a word token. */
  lemma NoWordAt(s: string)
    requires s != [] && !IsIdentStart(s[0]) && !IsDigit(s[0]) && s[0] != '$'
    ensures !StartsWith(s, "abs") && !StartsWith(s, "$signed") && !StartsWith(s, "signed")
    ensures TypeTokenLen(s) == 0 && IdentLen(s) == 0 && SizedLen(s) == 0 && DecimalLen(s) == 0
  {
    assert |s| >= 3 ==> s[..3][0] == s[0];
    assert |s| >= 6 ==> s[..6][0] == s[0];
    assert |s| >= 7 ==> s[..7][0] == s[0];
  }

  /** Nor a shift, when it does not start with `<` or `>`. */
  lemma NoShiftAt(s: string)
    requires s != [] && s[0] != '<' && s[0] != '>'
    ensures !StartsWith(s, ">>>") && !StartsWith(s, "<<") && !StartsWith(s, ">>")
  {
    assert |s| >= 2 ==> s[..2][0] == s[0];
    assert |s| >= 3 ==> s[..3][0] == s[0];
  }

  lemma OperatorReadsBack(op: Op)
    ensures ReadsBack(TOp(op), false)
  {
    if op == Shl {
      ShlReadsBack();
    } else if op == Shr {
      ShrReadsBack();
    } else if op == Shrs {
      ShrsReadsBack();
    } else {
      ArithmeticReadsBack(op);
    }
  }

  lemma ArithmeticReadsBack(op: Op)
    requires op == Add || op == Sub || op == Mul || op == Div
    ensures ReadsBack(TOp(op), false)
  {
    NoWordAt(op.Symbol());
    NoShiftAt(op.Symbol());
  }

  lemma ShlReadsBack()
    ensures ReadsBack(TOp(Shl), false)
  {
    NoWordAt("<<");
    assert "<<"[..2] == "<<";
  }

  lemma ShrReadsBack()
    ensures ReadsBack(TOp(Shr), false)
  {
    NoWordAt(">>");
    assert ">>"[..2] == ">>" && ">>"[..2][0] != '<';
  }

  lemma ShrsReadsBack()
    ensures ReadsBack(TOp(Shrs), false)
  {
    NoWordAt(">>>");
    assert ">>>"[..3] == ">>>";
  }

  /** Keywords and punctuation are read back from their fixed texts. */
  lemma FixedReadsBack(t: Tok)
    requires !(t.TType? || t.TIdent? || t.TNumber? || t.TOp?)
    ensures ReadsBack(t, false)
  {
    if t == TAbs {
      assert StartsWith("abs", "abs");
    } else if t.TSigned? {
      SignedReadsBack(t.dollar);
    } else {
      NoWordAt(TokText(t));
      NoShiftAt(TokText(t));
    }
  }

  lemma SignedReadsBack(dollar: bool)
    ensures ReadsBack(TSigned(dollar), false)
  {
    if dollar {
      assert "$signed"[..3][0] == '$';
    } else {
      assert "signed"[..3][0] == 's';
    }
  }

  /** `open y close` is spelled when `y` is. */
  lemma Enclosed(open: Tok, y: seq<Tok>, close: Tok)
    requires ReadsBack(open, false) && !open.TType? && Spelled(y, false)
    requires ReadsBack(close, false) && PlainStart([close])
    ensures Spelled([open] + (y + [close]), false)
  {
    SpelledJoin(y, [close], false);
    SpelledJoin([open], y + [close], false);
  }

  lemma {:induction false} ChainSpelled(lv: Level, n: Node)
    requires Canonical(lv, n)
    ensures Spelled(Tokens(n), false)
    decreases n, Rank(lv), 2
  {
    OperandSpelled(lv, n.first);
    StepsSpelled(lv, n, 0);
    SpelledJoin(Tokens(n.first), StepsTokens(n, 0), false);
  }

  lemma {:induction false} OperandSpelled(lv: Level, x: Node)
    requires CanonicalOperand(lv, x)
    ensures Spelled(Tokens(x), false)
    decreases x, Rank(lv), 0
  {
    match lv
    case Sum => ChainSpelled(Product, x);
    case Product => ChainSpelled(Shift, x);
    case Shift => AtomSpelled(x);
  }

  lemma {:induction false} StepsSpelled(lv: Level, n: Node, i: nat)
    requires n.Chain? && i <= |n.steps| && CanonicalSteps(lv, n, i)
    ensures Spelled(StepsTokens(n, i), false) && PlainStart(StepsTokens(n, i))
    decreases n, Rank(lv), 1, |n.steps| - i
  {
    if i < |n.steps| {
      var s := n.steps[i];
      OperandSpelled(lv, s.arg);
      StepsSpelled(lv, n, i + 1);
      SpelledJoin(Tokens(s.arg), StepsTokens(n, i + 1), false);
      OperatorReadsBack(s.op);
      SpelledJoin([TOp(s.op)], Tokens(s.arg) + StepsTokens(n, i + 1), false);
    }
  }

  lemma {:induction false} AtomSpelled(x: Node)
    requires CanonicalAtom(x)
    ensures Spelled(Tokens(x), false)
    decreases x, 0, 4
  {
    match x
    case Number(_) =>
    case TypeName(_) =>
    case Identifier(_) => NameUseSpelled(x);
    case Index(_, _) => NameUseSpelled(x);
    case Slice(_, _, _) => NameUseSpelled(x);
    case Annotated(_, _) => AnnotatedSpelled(x);
    case Paren(_) => ParenSpelled(x);
    case Concatenation(_) => ConcatenationSpelled(x);
    case Replicate(_, _) => ReplicateSpelled(x);
    case Abs(_) => CallSpelled(x);
    case SignedCast(_, _) => CallSpelled(x);
    case Negate(_) => NegateSpelled(x);
  }

  lemma {:induction false} AnnotatedSpelled(x: Node)
    requires x.Annotated? && CanonicalAtom(x)
    ensures Spelled(Tokens(x), false)
    decreases x, 0, 3
  {
    if x.sub.Number? {
      assert Tokens(x.sub) == [TNumber(x.sub.text)];
    } else {
      NameUseSpelled(x.sub);
    }
    SpelledJoin([TType(x.typeText)], Tokens(x.sub), false);
  }

  lemma {:induction false} ParenSpelled(x: Node)
    requires x.Paren? && CanonicalAtom(x)
    ensures Spelled(Tokens(x), false)
    decreases x, 0, 3
  {
    ChainSpelled(Sum, x.inner);
    FixedReadsBack(LParen);
    FixedReadsBack(RParen);
    Enclosed(LParen, Tokens(x.inner), RParen);
  }

  lemma {:induction false} ReplicateSpelled(x: Node)
    requires x.Replicate? && CanonicalAtom(x)
    ensures Spelled(Tokens(x), false)
    decreases x, 0, 3
  {
    var c, v := x.count, x.value;
    ChainSpelled(Sum, c);
    ChainSpelled(Sum, v);
    FixedReadsBack(LBrace);
    FixedReadsBack(RBrace);
    SpelledJoin([RBrace], [RBrace], false);
    TwoBraces();
    SpelledJoin(Tokens(v), [RBrace, RBrace], false);
    SpelledJoin([LBrace], Tokens(v) + [RBrace, RBrace], false);
    SpelledJoin(Tokens(c), [LBrace] + (Tokens(v) + [RBrace, RBrace]), false);
    SpelledJoin([LBrace], Tokens(c) + ([LBrace] + (Tokens(v) + [RBrace, RBrace])), false);
  }

  lemma {:induction false} CallSpelled(x: Node)
    requires (x.Abs? || x.SignedCast?) && CanonicalAtom(x)
    ensures Spelled(Tokens(x), false)
    decreases x, 0, 3
  {
    var keyword := if x.Abs? then TAbs else TSigned(x.dollar);
    assert Tokens(x) == [keyword] + ([LParen] + (Tokens(x.inner) + [RParen]));
    ChainSpelled(Sum, x.inner);
    FixedReadsBack(LParen);
    FixedReadsBack(RParen);
    FixedReadsBack(keyword);
    Enclosed(LParen, Tokens(x.inner), RParen);
    SpelledJoin([keyword], [LParen] + (Tokens(x.inner) + [RParen]), false);
  }

  lemma {:induction false} NegateSpelled(x: Node)
    requires x.Negate? && CanonicalAtom(x)
    ensures Spelled(Tokens(x), false)
    decreases x, 0, 3
  {
    ChainSpelled(Sum, x.inner);
    FixedReadsBack(Tilde);
    SpelledJoin([Tilde], Tokens(x.inner), false);
  }

  lemma {:induction false} NameUseSpelled(x: Node)
    requires NameUse(x) && CanonicalAtom(x)
    ensures Spelled(Tokens(x), false) && PlainStart(Tokens(x))
    decreases x, 0, 2
  {
    match x
    case Identifier(_) => IdentifierLayout(x, []);
    case Index(_, _) => IndexSpelled(x);
    case Slice(_, _, _) => SliceSpelled(x);
  }

  lemma {:induction false} IndexSpelled(x: Node)
    requires x.Index? && CanonicalAtom(x)
    ensures Spelled(Tokens(x), false) && PlainStart(Tokens(x))
    decreases x, 0, 1
  {
    var a := NameOf(x);
    NameLayout(x, []);
    IndexLayout(x, []);
    ChainSpelled(Sum, x.index);
    FixedReadsBack(LBracket);
    FixedReadsBack(RBracket);
    Enclosed(LBracket, Tokens(x.index), RBracket);
    SpelledJoin([TIdent(a)], [LBracket] + (Tokens(x.index) + [RBracket]), false);
  }

  lemma {:induction false} SliceSpelled(x: Node)
    requires x.Slice? && CanonicalAtom(x)
    ensures Spelled(Tokens(x), false) && PlainStart(Tokens(x))
    decreases x, 0, 1
  {
    var a := NameOf(x);
    var hi, lo := x.hi, x.lo;
    var tail := [LBracket] + (Tokens(hi) + ([Colon] + (Tokens(lo) + [RBracket])));
    NameLayout(x, []);
    SliceLayout(x, []);
    ChainSpelled(Sum, hi);
    ChainSpelled(Sum, lo);
    FixedReadsBack(LBracket);
    FixedReadsBack(RBracket);
    FixedReadsBack(Colon);
    SpelledJoin(Tokens(lo), [RBracket], false);
    SpelledJoin([Colon], Tokens(lo) + [RBracket], false);
    SpelledJoin(Tokens(hi), [Colon] + (Tokens(lo) + [RBracket]), false);
    SpelledJoin([LBracket], Tokens(hi) + ([Colon] + (Tokens(lo) + [RBracket])), false);
    SpelledJoin([TIdent(a)], tail, false);
  }

  lemma {:induction false} ConcatenationSpelled(x: Node)
    requires x.Concatenation? && CanonicalAtom(x)
    ensures Spelled(Tokens(x), false)
    decreases x, 0, 3
  {
    FixedReadsBack(LBrace);
    var parts := x.parts;
    ChainSpelled(Sum, parts[0]);
    ClosedPartsSpelled(x);
    SpelledJoin(Tokens(parts[0]), PartsTokens(x, 1) + [RBrace], false);
    SpelledJoin([LBrace], Tokens(parts[0]) + (PartsTokens(x, 1) + [RBrace]), false);
  }

  lemma {:induction false} ClosedPartsSpelled(x: Node)
    requires x.Concatenation? && x.parts != [] && CanonicalParts(x, 1)
    ensures Spelled(PartsTokens(x, 1) + [RBrace], false) && PlainStart(PartsTokens(x, 1) + [RBrace])
    decreases x, 0, 2, |x.parts|
  {
    FixedReadsBack(RBrace);
    PartsSpelled(x, 1);
    SpelledJoin(PartsTokens(x, 1), [RBrace], false);
  }

  lemma {:induction false} PartsSpelled(x: Node, i: nat)
    requires x.Concatenation? && 1 <= i <= |x.parts| && CanonicalParts(x, i)
    ensures Spelled(PartsTokens(x, i), false) && PlainStart(PartsTokens(x, i))
    decreases x, 0, 2, |x.parts| - i
  {
    if i < |x.parts| {
      FixedReadsBack(Comma);
      ChainSpelled(Sum, x.parts[i]);
      PartsSpelled(x, i + 1);
      SpelledJoin(Tokens(x.parts[i]), PartsTokens(x, i + 1), false);
      SpelledJoin([Comma], Tokens(x.parts[i]) + PartsTokens(x, i + 1), false);
    }
  }

  // ---------------------------------------------------------------------
  // The round trip

  /** Parsing the rendered text of a canonical tree gives back that tree. So
      the parser reads `+ -`, `* /` and the shifts as three nested levels of
      left-to-right operator lists, `~` as negating everything up to the end
      of the enclosing expression, and a type token followed by a name use or
      a number as an annotation. */
  lemma ExpressionRoundTrip(n: Node)
    requires Canonical(Sum, n)
    ensures ParseExpression(Render(Tokens(n))) == Ok(n)
  {
    ChainSpelled(Sum, n);
    LexRender(Tokens(n), false);
    ChainReadBack(Sum, n, []);
    assert Tokens(n) + [] == Tokens(n);
  }

  // ---------------------------------------------------------------------
  // Terminal priorities

  /** `abs` outranks identifiers even inside a longer word: whatever follows
      it is lexed on its own, so `absolute` is the keyword and then `olute`. */
  lemma KeywordPrefixSplits(w: string, ts: seq<Tok>)
    requires Lex(w, false) == Ok(ts)
    ensures Lex("abs" + w, false) == Ok([TAbs] + ts)
  {
    var s := "abs" + w;
    assert s[..3] == "abs" && s[3..] == w;
    assert NextToken(s, false) == Some((TAbs, 3));
  }

  /** A type token outranks identifiers: a complete type token followed by
      anything but a digit (`U8F0x`) is lexed as the type token, and the rest
      is lexed in the state after a type. */
  lemma TypePrefixSplits(t: string, w: string, ts: seq<Tok>)
    requires t != [] && TypeTokenLen(t) == |t|
    requires w != [] && !IsDigit(w[0]) && Lex(w, true) == Ok(ts)
    ensures Lex(t + w, false) == Ok([TType(t)] + ts)
  {
    var s := t + w;
    TypeTokenBeforeWord(t, w);
    NotKeywordAtType(s);
    assert s[..|t|] == t && s[|t|..] == w;
    assert NextToken(s, false) == Some((TType(t), |t|));
  }

  /** Right after a type token a keyword is an identifier: in `U8F0 abs` the
      word `abs` is the annotated name, as is any other word there. */
  lemma KeywordAfterType(t: string, w: string)
    requires t != [] && TypeTokenLen(t) == |t|
    requires w != [] && IdentLen(w) == |w|
    ensures Lex(t + " " + w, false) == Ok([TType(t), TIdent(w)])
  {
    IdentAfterType(w);
    assert (" " + w)[1..] == w;
    TypePrefixSplits(t, " " + w, [TIdent(w)]);
    assert t + " " + w == t + (" " + w);
    assert [TType(t)] + [TIdent(w)] == [TType(t), TIdent(w)];
  }

  /** After a type token a whole word, keyword or not, is one identifier. */
  lemma IdentAfterType(w: string)
    requires w != [] && IdentLen(w) == |w|
    ensures Lex(w, true) == Ok([TIdent(w)])
  {
    assert w[..|w|] == w && w[|w|..] == [];
    assert !IsBlank(w[0]);
    assert NextToken(w, true) == Some((TIdent(w), |w|));
    assert Lex([], false) == Ok([]);
    assert [TIdent(w)] + [] == [TIdent(w)];
  }

  /** A type token ends where its last digit run ends. */
  lemma TypeTokenBeforeWord(t: string, w: string)
    requires t != [] && TypeTokenLen(t) == |t|
    requires w != [] && !IsDigit(w[0])
    ensures TypeTokenLen(t + w) == |t|
  {
    var s := t + w;
    var d1 := Span(t[1..], IsDigit);
    assert s[1..] == t[1..] + w;
    SpanStopsInside(t[1..], w, IsDigit);
    assert s[2 + d1..] == t[2 + d1..] + w;
    SpanBeforeBlank(t[2 + d1..], w, IsDigit);
  }

  /** A span that stops inside `x` does not see what follows `x`. */
  lemma {:induction false} SpanStopsInside(x: string, y: string, P: char -> bool)
    requires Span(x, P) < |x|
    ensures Span(x + y, P) == Span(x, P)
    decreases |x|
  {
    if P(x[0]) {
      assert (x + y)[1..] == x[1..] + y;
      SpanStopsInside(x[1..], y, P);
    }
  }

  /** A word that starts with `S` or `U` is neither `abs` nor a signedness keyword. */
  lemma NotKeywordAtType(s: string)
    requires s != [] && (s[0] == 'S' || s[0] == 'U')
    ensures !StartsWith(s, "abs") && !StartsWith(s, "$signed") && !StartsWith(s, "signed")
  {
    assert |s| >= 3 ==> s[..3][0] == s[0];
    assert |s| >= 6 ==> s[..6][0] == s[0];
    assert |s| >= 7 ==> s[..7][0] == s[0];
  }
}
