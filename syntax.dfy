/** The expression language of the annotations: a lexer that follows the
    terminal priorities of the source's grammar, the syntax tree, and a
    recursive-descent parser for the grammar's LALR reading. */
module Syntax {
  import opened Text
  import opened Errors
  import opened FixedPoint

  // ---------------------------------------------------------------------
  // Tokens

  datatype Tok =
    | TType(text: string)      // [US]\d+F\d+
    | TIdent(name: string)     // [a-zA-Z_][a-zA-Z0-9_]*
    | TNumber(text: string)    // \d+'(b|d|h|sd)\w+  or  \d+(\.\d+)?
    | TAbs                     // abs
    | TSigned(dollar: bool)    // $signed or signed
    | TOp(op: Op)              // + - * / << >> >>>
    | LParen | RParen | LBrace | RBrace | Comma | LBracket | RBracket | Colon | Tilde

  /** The ignored whitespace of the grammar: space, tab, form feed, CR, LF. */
  predicate IsBlank(c: char) { c == ' ' || c == '\t' || c == '\U{C}' || c == '\r' || c == '\n' }

  predicate IsIdentStart(c: char) { IsLetter(c) || c == '_' }

  /** Length of the identifier at the start of `s`, or 0. */
  function IdentLen(s: string): (n: nat)
    ensures n <= |s|
    ensures n > 0 ==> IsIdentStart(s[0]) && forall i :: 0 <= i < n ==> IsWordChar(s[i])
  {
    if s == [] || !IsIdentStart(s[0]) then 0 else 1 + Span(s[1..], IsWordChar)
  }

  /** Length of the sized literal `\d+'(b|d|h|sd)\w+` at the start of `s`, or 0. */
  function SizedLen(s: string): (n: nat)
    ensures n <= |s|
  {
    var d := Span(s, IsDigit);
    if d == 0 || d + 1 >= |s| || s[d] != '\'' then 0
    else
      var f := BaseLen(s, d + 1);
      if f == 0 then 0
      else
        var w := Span(s[d + 1 + f..], IsWordChar);
        if w == 0 then 0 else d + 1 + f + w
  }

  /** Length of the base letters `b`, `d`, `h` or `sd` at position `k` of `s`, or 0. */
  function BaseLen(s: string, k: nat): (f: nat)
    requires k < |s|
    ensures k + f <= |s|
  {
    if s[k] == 'b' || s[k] == 'd' || s[k] == 'h' then 1
    else if s[k] == 's' && k + 1 < |s| && s[k + 1] == 'd' then 2
    else 0
  }

  /** Length of the decimal number `\d+(\.\d+)?` at the start of `s`, or 0. */
  function DecimalLen(s: string): (n: nat)
    ensures n <= |s|
  {
    var d := Span(s, IsDigit);
    if d == 0 then 0
    else if d + 1 < |s| && s[d] == '.' && IsDigit(s[d + 1]) then d + 1 + Span(s[d + 1..], IsDigit)
    else d
  }

  /** The next token and its length. `afterType` is the parser state right
      after a type token: only identifiers, numbers and what may follow an
      operand are expected there, so `abs`, `signed` and type-like words are
      read as identifiers. Elsewhere `abs` and `signed`/`$signed` come first,
      then type tokens, then the other terminals; a sized literal is tried
      before a decimal number and `>>>` before `>>`. */
  function NextToken(s: string, afterType: bool): (r: Option<(Tok, nat)>)
    requires s != []
    ensures r.Some? ==> 1 <= r.value.1 <= |s|
    ensures r.Some? && afterType ==> !r.value.0.TType? && !r.value.0.TAbs? && !r.value.0.TSigned?
  {
    if !afterType && StartsWith(s, "abs") then Some((TAbs, 3))
    else if !afterType && StartsWith(s, "$signed") then Some((TSigned(true), 7))
    else if !afterType && StartsWith(s, "signed") then Some((TSigned(false), 6))
    else if !afterType && TypeTokenLen(s) > 0 then Some((TType(s[..TypeTokenLen(s)]), TypeTokenLen(s)))
    else if IdentLen(s) > 0 then Some((TIdent(s[..IdentLen(s)]), IdentLen(s)))
    else if SizedLen(s) > 0 then Some((TNumber(s[..SizedLen(s)]), SizedLen(s)))
    else if DecimalLen(s) > 0 then Some((TNumber(s[..DecimalLen(s)]), DecimalLen(s)))
    else if StartsWith(s, ">>>") then Some((TOp(Shrs), 3))
    else if StartsWith(s, "<<") then Some((TOp(Shl), 2))
    else if StartsWith(s, ">>") then Some((TOp(Shr), 2))
    else
      match s[0]
      case '+' => Some((TOp(Add), 1))
      case '-' => Some((TOp(Sub), 1))
      case '*' => Some((TOp(Mul), 1))
      case '/' => Some((TOp(Div), 1))
      case '(' => Some((LParen, 1))
      case ')' => Some((RParen, 1))
      case '{' => Some((LBrace, 1))
      case '}' => Some((RBrace, 1))
      case ',' => Some((Comma, 1))
      case '[' => Some((LBracket, 1))
      case ']' => Some((RBracket, 1))
      case ':' => Some((Colon, 1))
      case '~' => Some((Tilde, 1))
      case _ => None
  }

  /** The token stream of `s`; a character no terminal matches is a syntax error. */
  function Lex(s: string, afterType: bool): (r: Result<seq<Tok>>)
    ensures r.Err? ==> r.error == Syntax
    ensures r.Ok? ==> |r.value| <= |s|
    decreases |s|
  {
    if s == [] then Ok([])
    else if IsBlank(s[0]) then Lex(s[1..], afterType)
    else
      match NextToken(s, afterType)
      case None => Err(Syntax)
      case Some((tok, len)) =>
        var rest :- Lex(s[len..], tok.TType?);
        Ok([tok] + rest)
  }

  // ---------------------------------------------------------------------
  // Syntax tree

  /** The three operator levels: `expr` (+ -), `term` (* /), `factor` (<< >> >>>). */
  datatype Level = Sum | Product | Shift

  predicate OpAt(lv: Level, op: Op) {
    match lv
    case Sum => op == Add || op == Sub
    case Product => op == Mul || op == Div
    case Shift => op == Shl || op == Shr || op == Shrs
  }

  function Rank(lv: Level): nat {
    match lv
    case Sum => 3
    case Product => 2
    case Shift => 1
  }

  datatype Node =
    | Number(text: string)
    | Identifier(name: string)
    | TypeName(typeText: string)                    // a bare type token used as an operand
    | Annotated(typeText: string, sub: Node)        // TYPE ident | TYPE array_access | TYPE number
    | Paren(inner: Node)
    | Concatenation(parts: seq<Node>)               // { e, e, ... }
    | Replicate(count: Node, value: Node)           // {n{v}}, a concatenation made of one replication
    | Abs(inner: Node)
    | SignedCast(dollar: bool, inner: Node)         // $signed(e) or signed(e)
    | Index(array: string, index: Node)             // a[i]
    | Slice(array: string, hi: Node, lo: Node)      // a[hi:lo]
    | Negate(inner: Node)                           // ~e
    | Chain(level: Level, first: Node, steps: seq<Step>)

  datatype Step = Step(op: Op, arg: Node)

  // ---------------------------------------------------------------------
  // Parser. Every function returns the tree and the unread tokens.

  type Parsed<T> = Result<(T, seq<Tok>)>

  predicate Consumed<T>(r: Parsed<T>, ts: seq<Tok>) {
    r.Ok? ==> |r.value.1| < |ts|
  }

  predicate Within<T>(r: Parsed<T>, ts: seq<Tok>) {
    r.Ok? ==> |r.value.1| <= |ts|
  }

  /** `ts` starts with `t`. */
  predicate Next(ts: seq<Tok>, t: Tok) { ts != [] && ts[0] == t }

  /** One level of the precedence ladder: an operand followed by any number
      of operators of this level, each with its operand. */
  function ParseChain(lv: Level, ts: seq<Tok>): (r: Parsed<Node>)
    ensures Consumed(r, ts)
    ensures r.Err? ==> r.error == Syntax
    ensures r.Ok? ==> r.value.0.Chain? && r.value.0.level == lv
    decreases |ts|, Rank(lv), 1
  {
    var (first, rest) :- ParseOperand(lv, ts);
    var (steps, rest2) :- ParseSteps(lv, rest);
    Ok((Chain(lv, first, steps), rest2))
  }

  /** An operand of level `lv`: the next level down, or an atom below `factor`. */
  function ParseOperand(lv: Level, ts: seq<Tok>): (r: Parsed<Node>)
    ensures Consumed(r, ts)
    ensures r.Err? ==> r.error == Syntax
    decreases |ts|, Rank(lv), 0
  {
    match lv
    case Sum => ParseChain(Product, ts)
    case Product => ParseChain(Shift, ts)
    case Shift => ParseAtom(ts)
  }

  function ParseSteps(lv: Level, ts: seq<Tok>): (r: Parsed<seq<Step>>)
    ensures Within(r, ts)
    ensures r.Err? ==> r.error == Syntax
    ensures r.Ok? ==> forall i :: 0 <= i < |r.value.0| ==> OpAt(lv, r.value.0[i].op)
    decreases |ts|, Rank(lv), 2
  {
    if ts != [] && ts[0].TOp? && OpAt(lv, ts[0].op) then
      var (arg, rest) :- ParseOperand(lv, ts[1..]);
      var (more, rest2) :- ParseSteps(lv, rest);
      Ok(([Step(ts[0].op, arg)] + more, rest2))
    else Ok(([], ts))
  }

  /** `ts[0]` has been read as `want`; fail unless it is there. */
  function Expect(ts: seq<Tok>, want: Tok): (r: Result<seq<Tok>>)
    ensures r.Ok? <==> Next(ts, want)
    ensures r.Ok? ==> r.value == ts[1..]
    ensures r.Err? ==> r.error == Syntax
  {
    if Next(ts, want) then Ok(ts[1..]) else Err(Syntax)
  }

  /** `name` alone, `name[e]` or `name[e:e]`; `ts` follows the name. */
  function ParseNameUse(name: string, ts: seq<Tok>): (r: Parsed<Node>)
    ensures Within(r, ts)
    ensures r.Err? ==> r.error == Syntax
    ensures r.Ok? ==> r.value.0.Identifier? || r.value.0.Index? || r.value.0.Slice?
    decreases |ts|, 0, 0
  {
    if !Next(ts, LBracket) then Ok((Identifier(name), ts))
    else
      var (e1, rest) :- ParseChain(Sum, ts[1..]);
      if Next(rest, Colon) then
        var (e2, rest2) :- ParseChain(Sum, rest[1..]);
        var rest3 :- Expect(rest2, RBracket);
        Ok((Slice(name, e1, e2), rest3))
      else
        var rest2 :- Expect(rest, RBracket);
        Ok((Index(name, e1), rest2))
  }

  /** The elements after the first of a concatenation, up to its closing brace. */
  function ParseElements(ts: seq<Tok>): (r: Parsed<seq<Node>>)
    ensures Consumed(r, ts)
    ensures r.Err? ==> r.error == Syntax
    decreases |ts|, 0, 0
  {
    if Next(ts, Comma) then
      var (e, rest) :- ParseChain(Sum, ts[1..]);
      var (more, rest2) :- ParseElements(rest);
      Ok(([e] + more, rest2))
    else
      var rest :- Expect(ts, RBrace);
      Ok(([], rest))
  }

  /** `( e )` after an `abs` or `signed` keyword. */
  function ParseCallArgument(ts: seq<Tok>): (r: Parsed<Node>)
    ensures Consumed(r, ts)
    ensures r.Err? ==> r.error == Syntax
    decreases |ts|, 0, 0
  {
    var rest :- Expect(ts, LParen);
    var (e, rest2) :- ParseChain(Sum, rest);
    var rest3 :- Expect(rest2, RParen);
    Ok((e, rest3))
  }

  /** An atom. `~` takes a whole expression: `~a + b` is `~(a + b)`, the
      reading the grammar's LALR tables give by preferring to shift. */
  function ParseAtom(ts: seq<Tok>): (r: Parsed<Node>)
    ensures Consumed(r, ts)
    ensures r.Err? ==> r.error == Syntax
    decreases |ts|, 0, 1
  {
    if ts == [] then Err(Syntax)
    else
      match ts[0]
      case TNumber(text) => Ok((Number(text), ts[1..]))
      case TIdent(name) => ParseNameUse(name, ts[1..])
      case TType(text) =>
        if ts[1..] != [] && ts[1].TIdent? then
          var (sub, rest) :- ParseNameUse(ts[1].name, ts[2..]);
          Ok((Annotated(text, sub), rest))
        else if ts[1..] != [] && ts[1].TNumber? then Ok((Annotated(text, Number(ts[1].text)), ts[2..]))
        else Ok((TypeName(text), ts[1..]))
      case LParen =>
        var (e, rest) :- ParseChain(Sum, ts[1..]);
        var rest2 :- Expect(rest, RParen);
        Ok((Paren(e), rest2))
      case LBrace =>
        var (e, rest) :- ParseChain(Sum, ts[1..]);
        if Next(rest, LBrace) then
          var (v, rest2) :- ParseChain(Sum, rest[1..]);
          var rest3 :- Expect(rest2, RBrace);
          var rest4 :- Expect(rest3, RBrace);
          Ok((Replicate(e, v), rest4))
        else
          var (more, rest2) :- ParseElements(rest);
          Ok((Concatenation([e] + more), rest2))
      case TAbs =>
        var (e, rest) :- ParseCallArgument(ts[1..]);
        Ok((Abs(e), rest))
      case TSigned(dollar) =>
        var (e, rest) :- ParseCallArgument(ts[1..]);
        Ok((SignedCast(dollar, e), rest))
      case Tilde =>
        var (e, rest) :- ParseChain(Sum, ts[1..]);
        Ok((Negate(e), rest))
      case _ => Err(Syntax)
  }

  /** The `start` rule: a whole expression and nothing after it. */
  function ParseExpression(s: string): (r: Result<Node>)
    ensures r.Err? ==> r.error == Syntax
    ensures r.Ok? ==> r.value.Chain? && r.value.level == Sum
  {
    var ts :- Lex(s, false);
    var (n, rest) :- ParseChain(Sum, ts);
    if rest != [] then Err(Syntax) else Ok(n)
  }
}
