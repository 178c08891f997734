/** Reading the two kinds of source lines the scan looks at: annotation
    comments (`// TYPE name = expr` and `// expr = TYPE`) and Verilog
    assignments. */
module Comments {
  import opened Text
  import opened Errors
  import opened FixedPoint

  // ---------------------------------------------------------------------
  // Annotation comments

  /** What a comment line says. A malformed type token in an otherwise
      matching annotation makes the source raise outside any handler. */
  datatype Annotation =
    | NoAnnotation
    | Annotation(declared: Ty, expression: string)
    | BadAnnotationType(token: string)

  /** The characters of a descriptive label such as `Volume scaling`. */
  predicate IsLabelChar(c: char) { IsLetter(c) || c == ' ' }

  /** A descriptive prefix `// <letters and spaces>:` of the stripped line `s`
      is replaced by `// `, and the blanks after the colon are dropped. */
  function DropLabel(s: string): (r: string)
    ensures StartsWith(s, "//") ==> StartsWith(r, "//")
  {
    if !StartsWith(s, "//") then s
    else
      var e := LabelColon(s);
      if e < 0 then s
      else
        var rest := LStrip(s[e + 1..]);
        CommentOpening(rest);
        "// " + rest
  }

  /** The colon that ends the label of the comment `s`, or -1. The label
      follows the blanks after `//`; it is non-empty, or a space just before
      the colon belongs to it. */
  function LabelColon(s: string): (e: int)
    requires StartsWith(s, "//")
    ensures e == -1 || (2 <= e < |s| && s[e] == ':')
  {
    var p := BodyStart(s);
    var e := p + Span(s[p..], IsLabelChar);
    if e < |s| && s[e] == ':' && (e > p || s[p - 1] == ' ') then e else -1
  }

  lemma CommentOpening(rest: string)
    ensures StartsWith("// " + rest, "//")
  {
    assert ("// " + rest)[..2] == "//";
  }

  /** Every non-empty label of letters and spaces is dropped: `//<label>:<rest>`
      becomes `// ` followed by `rest` without its leading blanks. */
  lemma LabelDropped(caption: string, rest: string)
    requires caption != [] && forall i :: 0 <= i < |caption| ==> IsLabelChar(caption[i])
    ensures DropLabel("//" + caption + ":" + rest) == "// " + LStrip(rest)
  {
    var s := "//" + caption + ":" + rest;
    var e := 2 + |caption|;
    LabelColonAfter(caption, rest);
    DropLabelAt(s, e);
    assert s[e + 1..] == rest;
  }

  /** The colon that ends a label of label characters is the one found. */
  lemma LabelColonAfter(caption: string, rest: string)
    requires caption != [] && forall i :: 0 <= i < |caption| ==> IsLabelChar(caption[i])
    ensures var s := "//" + caption + ":" + rest; StartsWith(s, "//") && LabelColon(s) == 2 + |caption|
  {
    var t := caption + ([':'] + rest);
    assert "//" + caption + ":" + rest == "//" + t;
    var a := Span(t, IsSpace);
    LabelBlanks(caption, rest);
    LabelSpan(caption, a, rest);
    assert t[|caption|] == ':';
    LabelColonOf(t, a, |caption| - a);
  }

  /** After `//`, `a` blanks and `n` label characters, a colon ends the label
      when the label is not empty or the blanks end with a space. */
  lemma LabelColonOf(t: string, a: nat, n: nat)
    requires a == Span(t, IsSpace) && a + n < |t| && n == Span(t[a..], IsLabelChar)
    requires t[a + n] == ':' && (n > 0 || (a > 0 && t[a - 1] == ' '))
    ensures StartsWith("//" + t, "//") && LabelColon("//" + t) == 2 + a + n
  {
    var s := "//" + t;
    assert s[..2] == "//" && s[2..] == t;
    assert BodyStart(s) == 2 + a;
    var p := BodyStart(s);
    assert s[p..] == t[a..];
    assert s[p + n] == t[a + n];
    if n == 0 {
      assert s[p - 1] == t[a - 1];
    }
    var e := p + Span(s[p..], IsLabelChar);
    assert e == 2 + a + n;
  }

  /** The blanks before a label are among its first characters, and when they
      are all of it the label ends with a space. */
  lemma LabelBlanks(caption: string, rest: string)
    requires caption != [] && forall i :: 0 <= i < |caption| ==> IsLabelChar(caption[i])
    ensures var t := caption + ([':'] + rest); var a := Span(t, IsSpace);
      a <= |caption| && t[a..] == caption[a..] + ([':'] + rest)
      && (a == |caption| ==> t[a - 1] == ' ')
  {
    var t := caption + ([':'] + rest);
    var a := Span(t, IsSpace);
    assert !IsSpace(t[|caption|]);
    if a == |caption| {
      assert t[a - 1] == caption[a - 1];
      BlankLabelChar(caption[a - 1]);
    }
  }

  /** The label ends at the colon at `e`. */
  lemma DropLabelAt(s: string, e: nat)
    requires StartsWith(s, "//") && LabelColon(s) == e
    ensures DropLabel(s) == "// " + LStrip(s[e + 1..])
  {
    var k := LabelColon(s);
    assert s[k + 1..] == s[e + 1..];
  }

  lemma LabelSpan(caption: string, a: nat, rest: string)
    requires a <= |caption| && forall i :: 0 <= i < |caption| ==> IsLabelChar(caption[i])
    ensures Span(caption[a..] + ([':'] + rest), IsLabelChar) == |caption| - a
  {
    SpanOfRun(caption[a..], [':'] + rest, IsLabelChar);
  }

  /** The only blank among the label characters is the space. */
  lemma BlankLabelChar(c: char)
    requires IsLabelChar(c) && IsSpace(c)
    ensures c == ' '
  {
  }

  /** A labelled comment is read as the same comment without its label. */
  lemma LabelledComment(caption: string, u: string)
    requires caption != [] && forall i :: 0 <= i < |caption| ==> IsLabelChar(caption[i])
    requires Stripped(u)
    ensures ParseComment("//" + caption + ":" + ([' '] + u)) == ReadAnnotation("//" + ([' '] + u))
  {
    var s := "//" + caption + ":" + ([' '] + u);
    var t := "//" + ([' '] + u);
    LabelledText(caption, u);
    ReadsLabelFree(s, t);
  }

  lemma LabelledText(caption: string, u: string)
    requires caption != [] && forall i :: 0 <= i < |caption| ==> IsLabelChar(caption[i])
    requires Stripped(u)
    ensures var s := "//" + caption + ":" + ([' '] + u);
      StartsWith(s, "//") && Strip(s) == s && Strip(DropLabel(s)) == "//" + ([' '] + u)
  {
    LabelledDropped(caption, u);
    LabelledStripped(caption, u);
  }

  lemma LabelledDropped(caption: string, u: string)
    requires caption != [] && forall i :: 0 <= i < |caption| ==> IsLabelChar(caption[i])
    requires Stripped(u)
    ensures Strip(DropLabel("//" + caption + ":" + ([' '] + u))) == "//" + ([' '] + u)
  {
    LabelDropped(caption, [' '] + u);
    BlankThenStripped(u);
  }

  lemma LabelledStripped(caption: string, u: string)
    requires Stripped(u)
    ensures var s := "//" + caption + ":" + ([' '] + u); StartsWith(s, "//") && Strip(s) == s
  {
    var s := "//" + caption + ":" + ([' '] + u);
    assert s[..2] == "//" && s[|s| - 1] == u[|u| - 1];
    StripUnchanged(s);
  }

  lemma BlankThenStripped(u: string)
    requires Stripped(u)
    ensures Strip("// " + LStrip([' '] + u)) == "//" + ([' '] + u)
  {
    var t := "//" + ([' '] + u);
    StripAfterBlank(u);
    SpacedComment(u);
    StripUnchanged(t);
  }

  lemma SpacedComment(u: string)
    requires u != []
    ensures var t := "//" + ([' '] + u); "// " + u == t && t[0] == '/' && t[|t| - 1] == u[|u| - 1]
  {
  }

  /** A comment is read from its label-free, stripped text. */
  lemma ReadsLabelFree(s: string, t: string)
    requires StartsWith(s, "//") && Strip(s) == s && Strip(DropLabel(s)) == t
    ensures StartsWith(t, "//") && ParseComment(s) == ReadAnnotation(t)
  {
    StripKeepsComment(DropLabel(s));
  }

  /** The first form behind a descriptive label, as in `// Volume scaling:
      U8F8 gain = x`, reads as it does without the label. */
  lemma LabelledTypeFirstLine(caption: string, c: char, d1: string, d2: string, name: string, expression: string)
    requires caption != [] && forall i :: 0 <= i < |caption| ==> IsLabelChar(caption[i])
    requires c == 'S' || c == 'U'
    requires d1 != [] && AllDigits(d1) && d2 != [] && AllDigits(d2)
    requires WordName(name) && Stripped(expression)
    ensures ParseComment("//" + caption + ":" + ([' '] + TokenLine(c, d1, d2, NameTail(name, expression))))
      == if c == 'S' && d1 == d2 then BadAnnotationType(Token(c, d1, d2))
         else Annotation(Ty(c == 'S', DecimalValue(d1), DecimalValue(d2)), expression)
  {
    var u := TokenLine(c, d1, d2, NameTail(name, expression));
    var s := TypeFirstLine(c, d1, d2, name, expression);
    TypeFirstLineStrip(c, d1, d2, name, expression);
    assert s == "//" + ([' '] + u) && u[0] == c && u[|u| - 1] == s[|s| - 1];
    LabelledComment(caption, u);
    TypeFirstLineKeepsLabel(c, d1, d2, name, expression);
    PlainComment(s);
    ParseTypeFirstLine(c, d1, d2, name, expression);
  }

  /** The second form behind a descriptive label, as in `// Gain: x * y =
      U8F8`, reads as it does without the label. */
  lemma LabelledTypeLastLine(caption: string, expression: string, c: char, d1: string, d2: string)
    requires caption != [] && forall i :: 0 <= i < |caption| ==> IsLabelChar(caption[i])
    requires c == 'S' || c == 'U'
    requires d1 != [] && AllDigits(d1) && d2 != [] && AllDigits(d2)
    requires PlainExpression(expression)
    ensures ParseComment("//" + caption + ":" + ([' '] + (expression + ([' '] + (['='] + ([' '] + Token(c, d1, d2)))))))
      == if c == 'S' && d1 == d2 then BadAnnotationType(Token(c, d1, d2))
         else Annotation(Ty(c == 'S', DecimalValue(d1), DecimalValue(d2)), expression)
  {
    var u := expression + ([' '] + (['='] + ([' '] + Token(c, d1, d2))));
    var s := TypeLastLine(expression, c, d1, d2);
    TypeLastLineShape(expression, c, d1, d2);
    assert s == "//" + ([' '] + u) && u[0] == expression[0] && u[|u| - 1] == s[|s| - 1];
    LabelledComment(caption, u);
    TypeLastLineKeepsLabel(expression, c, d1, d2);
    PlainComment(s);
    ParseTypeLastLine(expression, c, d1, d2);
  }

  /** The blanks after the leading `//` of `t`: where the annotation body starts. */
  function BodyStart(t: string): (p: nat)
    requires StartsWith(t, "//")
    ensures 2 <= p <= |t|
  {
    2 + Span(t[2..], IsSpace)
  }

  /** After the type token: at least one blank, a name, blanks, `=`, and
      some text; that text. */
  function AfterResultName(v: string): (r: Option<string>)
    ensures r.Some? ==> r.value != []
  {
    var w := Span(v, IsSpace);
    var x := v[w..];
    var m := Span(x, IsWordChar);
    var y := LStrip(x[m..]);
    if w == 0 || m == 0 || |y| < 2 || y[0] != '=' then None else Some(y[1..])
  }

  /** `// TYPE name = expr`: the type token and the stripped expression. */
  function MatchTypeFirst(t: string): (r: Option<(string, string)>)
    requires StartsWith(t, "//")
  {
    TokenThenName(t[BodyStart(t)..])
  }

  /** The annotation body of the first form: a type token, then the result name. */
  function TokenThenName(u: string): (r: Option<(string, string)>) {
    var n := TypeTokenLen(u);
    if n == 0 then None
    else
      match AfterResultName(u[n..])
      case None => None
      case Some(rest) => Some((u[..n], Strip(rest)))
  }

  /** `// expr = TYPE`: the type token (which ends the line, after the last
      `=`) and the stripped expression before that `=`. */
  function MatchTypeLast(t: string): (r: Option<(string, string)>)
    requires StartsWith(t, "//")
    ensures r.Some? ==> TypeTokenLen(r.value.0) == |r.value.0| > 0
  {
    var e := LastIndexOf(t, '=');
    if e < 3 then None
    else
      var token := t[NextNonBlank(t, e + 1)..];
      var n := TypeTokenLen(token);
      if n == 0 || n != |token| then None else Some((token, Strip(t[2..e])))
  }

  /** `parse_comment`: the first form is tried first; the type token of the
      form that matches must be a valid type. */
  function ParseComment(line: string): (r: Annotation)
    ensures !StartsWith(Strip(line), "//") ==> r == NoAnnotation
  {
    CommentOf(Strip(line))
  }

  /** The annotation in the stripped line `s`. */
  function CommentOf(s: string): (r: Annotation)
    ensures !StartsWith(s, "//") ==> r == NoAnnotation
  {
    if !StartsWith(s, "//") then NoAnnotation
    else
      var t := Strip(DropLabel(s));
      assert StartsWith(t, "//") by { StripKeepsComment(DropLabel(s)); }
      ReadAnnotation(t)
  }

  /** The annotation in the stripped, label-free comment `t`. */
  function ReadAnnotation(t: string): (r: Annotation)
    requires StartsWith(t, "//")
  {
    var m: Option<(string, string)> := match MatchTypeFirst(t) case Some(x) => Some(x) case None => MatchTypeLast(t);
    match m
    case None => NoAnnotation
    case Some((token, expression)) =>
      match ParseType(token)
      case Ok(ty) => Annotation(ty, expression)
      case Err(_) => BadAnnotationType(token)
  }

  lemma StripKeepsComment(s: string)
    requires StartsWith(s, "//")
    ensures StartsWith(Strip(s), "//")
  {
    assert LStrip(s) == s;
    assert !IsSpace(s[1]);
  }

  /** `// TYPE name = expr`, written with one blank around each part. */
  function TypeFirstLine(c: char, d1: string, d2: string, name: string, expression: string): string {
    "//" + ([' '] + TokenLine(c, d1, d2, NameTail(name, expression)))
  }

  /** The first form is read back as its type and its expression, unless the
      token is signed with identical digit strings, which aborts the scan. */
  lemma ParseTypeFirstLine(c: char, d1: string, d2: string, name: string, expression: string)
    requires c == 'S' || c == 'U'
    requires d1 != [] && AllDigits(d1) && d2 != [] && AllDigits(d2)
    requires WordName(name) && Stripped(expression)
    ensures ParseComment(TypeFirstLine(c, d1, d2, name, expression))
      == if c == 'S' && d1 == d2 then BadAnnotationType(Token(c, d1, d2))
         else Annotation(Ty(c == 'S', DecimalValue(d1), DecimalValue(d2)), expression)
  {
    var s := TypeFirstLine(c, d1, d2, name, expression);
    TypeFirstLineStrip(c, d1, d2, name, expression);
    TypeFirstLineKeepsLabel(c, d1, d2, name, expression);
    TypeFirstLineMatches(c, d1, d2, name, expression);
    FirstFormToken(s, c, d1, d2, expression);
  }

  lemma TypeFirstLineStrip(c: char, d1: string, d2: string, name: string, expression: string)
    requires Stripped(expression)
    ensures var s := TypeFirstLine(c, d1, d2, name, expression); Stripped(s) && StartsWith(s, "//")
  {
    var s := TypeFirstLine(c, d1, d2, name, expression);
    var front := "//" + ([' '] + ([c] + (d1 + (['F'] + (d2 + ([' '] + (name + " = ")))))));
    assert s == front + expression;
    assert s[|s| - 1] == expression[|expression| - 1];
  }

  lemma TypeFirstLineKeepsLabel(c: char, d1: string, d2: string, name: string, expression: string)
    requires c == 'S' || c == 'U'
    requires d1 != [] && AllDigits(d1)
    ensures var s := TypeFirstLine(c, d1, d2, name, expression); DropLabel(s) == s
  {
    var u := TokenLine(c, d1, d2, NameTail(name, expression));
    assert u == [c] + u[1..] && u[1] == d1[0];
    SpanOfRun([c], u[1..], IsLabelChar);
    KeepsLabel(u);
  }

  /** A comment `// u` whose first run of label characters in `u` is not
      followed by `:` has no label to drop. */
  lemma KeepsLabel(u: string)
    requires u != [] && !IsSpace(u[0])
    requires var n := Span(u, IsLabelChar); n == |u| || u[n] != ':'
    ensures var s := "//" + ([' '] + u); DropLabel(s) == s
  {
    var s := "//" + ([' '] + u);
    CommentBody(u);
    assert LabelColon(s) == -1;
    DropLabelKept(s);
  }

  /** Without a colon after the label characters nothing is dropped. */
  lemma DropLabelKept(s: string)
    requires StartsWith(s, "//") && LabelColon(s) == -1
    ensures DropLabel(s) == s
  {
  }

  lemma TypeFirstLineMatches(c: char, d1: string, d2: string, name: string, expression: string)
    requires c == 'S' || c == 'U'
    requires d1 != [] && AllDigits(d1) && d2 != [] && AllDigits(d2)
    requires WordName(name) && Stripped(expression)
    ensures MatchTypeFirst(TypeFirstLine(c, d1, d2, name, expression)) == Some((Token(c, d1, d2), expression))
  {
    var u := TokenLine(c, d1, d2, NameTail(name, expression));
    CommentBody(u);
    TokenThenNameOf(c, d1, d2, name, expression);
  }

  lemma FirstFormToken(s: string, c: char, d1: string, d2: string, expression: string)
    requires c == 'S' || c == 'U'
    requires d1 != [] && AllDigits(d1) && d2 != [] && AllDigits(d2)
    requires Stripped(s) && StartsWith(s, "//") && DropLabel(s) == s
    requires MatchTypeFirst(s) == Some((Token(c, d1, d2), expression))
    ensures ParseComment(s)
      == if c == 'S' && d1 == d2 then BadAnnotationType(Token(c, d1, d2))
         else Annotation(Ty(c == 'S', DecimalValue(d1), DecimalValue(d2)), expression)
  {
    var token := Token(c, d1, d2);
    ParseToken(c, d1, d2);
    if c == 'S' && d1 == d2 {
      ReadFirstForm(s, token, expression, Err(InvalidType(token)));
    } else {
      ReadFirstForm(s, token, expression, Ok(Ty(c == 'S', DecimalValue(d1), DecimalValue(d2))));
    }
  }

  /** A stripped comment without a label whose first form matches is read
      as that form's type and expression. */
  lemma ReadFirstForm(s: string, token: string, expression: string, parsed: Result<Ty>)
    requires Stripped(s) && StartsWith(s, "//") && DropLabel(s) == s
    requires MatchTypeFirst(s) == Some((token, expression)) && ParseType(token) == parsed
    ensures ParseComment(s) == match parsed
      case Ok(ty) => Annotation(ty, expression)
      case Err(_) => BadAnnotationType(token)
  {
    PlainComment(s);
    FirstFormAnnotation(s, token, expression);
  }

  /** A stripped comment without a label is read as it stands. */
  lemma PlainComment(s: string)
    requires Stripped(s) && StartsWith(s, "//") && DropLabel(s) == s
    ensures ParseComment(s) == ReadAnnotation(s)
  {
    StripUnchanged(s);
  }

  lemma FirstFormAnnotation(t: string, token: string, expression: string)
    requires StartsWith(t, "//") && MatchTypeFirst(t) == Some((token, expression))
    ensures ReadAnnotation(t) == match ParseType(token)
      case Ok(ty) => Annotation(ty, expression)
      case Err(_) => BadAnnotationType(token)
  {
  }

  /** A comment `// u` whose body does not start with a blank has body `u`. */
  lemma CommentBody(u: string)
    requires u != [] && !IsSpace(u[0])
    ensures var s := "//" + ([' '] + u); StartsWith(s, "//") && BodyStart(s) == 3 && s[3..] == u
  {
    var s := "//" + ([' '] + u);
    assert s[2..] == [' '] + u;
    BlankBefore(u);
  }

  lemma TokenThenNameOf(c: char, d1: string, d2: string, name: string, expression: string)
    requires c == 'S' || c == 'U'
    requires d1 != [] && AllDigits(d1) && d2 != [] && AllDigits(d2)
    requires WordName(name) && Stripped(expression)
    ensures TokenThenName(TokenLine(c, d1, d2, NameTail(name, expression))) == Some((Token(c, d1, d2), expression))
  {
    var v := NameTail(name, expression);
    var u := TokenLine(c, d1, d2, v);
    TypeTokenOf(c, d1, d2, v);
    TokenLineSplit(c, d1, d2, v);
    var n := |d1| + |d2| + 2;
    assert u[..n] == Token(c, d1, d2);
    assert u[n..] == v;
    ResultNameThen(name, expression);
  }

  /** The text after the type token in the first form. */
  function NameTail(name: string, expression: string): string {
    [' '] + (name + ([' '] + (['='] + ([' '] + expression))))
  }

  lemma ResultNameThen(name: string, expression: string)
    requires WordName(name) && Stripped(expression)
    ensures var r := AfterResultName(NameTail(name, expression));
      r.Some? && Strip(r.value) == expression
  {
    var y := ['='] + ([' '] + expression);
    var z := [' '] + y;
    var x := name + z;
    BlankBefore(x);
    WordThen(name, z);
    BlankBefore(y);
    assert y[1..] == [' '] + expression;
    StripAfterBlank(expression);
  }

  /** One blank in front of a text that does not start with one. */
  lemma BlankBefore(x: string)
    requires x != [] && !IsSpace(x[0])
    ensures Span([' '] + x, IsSpace) == 1 && ([' '] + x)[1..] == x && LStrip([' '] + x) == x
  {
    var v := [' '] + x;
    assert v[1..] == x;
    assert LStrip(x) == x;
  }

  /** `// expr = TYPE`, written with one blank around each part. */
  function TypeLastLine(expression: string, c: char, d1: string, d2: string): string {
    "//" + ([' '] + (expression + ([' '] + (['='] + ([' '] + Token(c, d1, d2))))))
  }

  /** An expression the second form can carry unambiguously: no `=`, no
      label colon, and not starting like a type token. */
  predicate PlainExpression(e: string) {
    Stripped(e) && e[0] != 'S' && e[0] != 'U'
    && forall i :: 0 <= i < |e| ==> e[i] != '=' && e[i] != ':'
  }

  /** The second form is read back as its type and its expression. */
  lemma ParseTypeLastLine(expression: string, c: char, d1: string, d2: string)
    requires c == 'S' || c == 'U'
    requires d1 != [] && AllDigits(d1) && d2 != [] && AllDigits(d2)
    requires PlainExpression(expression)
    ensures ParseComment(TypeLastLine(expression, c, d1, d2))
      == if c == 'S' && d1 == d2 then BadAnnotationType(Token(c, d1, d2))
         else Annotation(Ty(c == 'S', DecimalValue(d1), DecimalValue(d2)), expression)
  {
    var s := TypeLastLine(expression, c, d1, d2);
    TypeLastLineShape(expression, c, d1, d2);
    TypeLastLineKeepsLabel(expression, c, d1, d2);
    TypeLastLineMatches(expression, c, d1, d2);
    var token := Token(c, d1, d2);
    ParseToken(c, d1, d2);
    if c == 'S' && d1 == d2 {
      ReadLastForm(s, token, expression, Err(InvalidType(token)));
    } else {
      ReadLastForm(s, token, expression, Ok(Ty(c == 'S', DecimalValue(d1), DecimalValue(d2))));
    }
  }

  lemma ReadLastForm(s: string, token: string, expression: string, parsed: Result<Ty>)
    requires Stripped(s) && StartsWith(s, "//") && DropLabel(s) == s
    requires MatchTypeFirst(s) == None && MatchTypeLast(s) == Some((token, expression))
    requires ParseType(token) == parsed
    ensures ParseComment(s) == match parsed
      case Ok(ty) => Annotation(ty, expression)
      case Err(_) => BadAnnotationType(token)
  {
    PlainComment(s);
  }

  lemma TypeLastLineShape(expression: string, c: char, d1: string, d2: string)
    requires PlainExpression(expression) && d2 != [] && AllDigits(d2)
    ensures var s := TypeLastLine(expression, c, d1, d2);
      Stripped(s) && StartsWith(s, "//") && s[3..] == expression + ([' '] + (['='] + ([' '] + Token(c, d1, d2))))
  {
    var s := TypeLastLine(expression, c, d1, d2);
    var token := Token(c, d1, d2);
    assert token[|token| - 1] == d2[|d2| - 1];
    assert s[|s| - 1] == token[|token| - 1];
  }

  lemma TypeLastLineKeepsLabel(expression: string, c: char, d1: string, d2: string)
    requires PlainExpression(expression)
    ensures var s := TypeLastLine(expression, c, d1, d2); DropLabel(s) == s
  {
    var u := expression + ([' '] + (['='] + ([' '] + Token(c, d1, d2))));
    var n := Span(u, IsLabelChar);
    assert u[|expression| + 1] == '=';
    assert n <= |expression| + 1;
    if n < |expression| {
      assert u[n] == expression[n];
    } else {
      assert u[n] == ' ' || u[n] == '=';
    }
    KeepsLabel(u);
  }

  lemma TypeLastLineMatches(expression: string, c: char, d1: string, d2: string)
    requires c == 'S' || c == 'U'
    requires d1 != [] && AllDigits(d1) && d2 != [] && AllDigits(d2)
    requires PlainExpression(expression)
    ensures var s := TypeLastLine(expression, c, d1, d2);
      StartsWith(s, "//") && MatchTypeFirst(s) == None && MatchTypeLast(s) == Some((Token(c, d1, d2), expression))
  {
    var s := TypeLastLine(expression, c, d1, d2);
    var token := Token(c, d1, d2);
    var u := expression + ([' '] + (['='] + ([' '] + token)));
    CommentBody(u);
    assert u[0] == expression[0];
    var e := 4 + |expression|;
    LastEquals(expression, c, d1, d2);
    TokenAfterEquals(expression, c, d1, d2);
  }

  /** In the second form the `=` before the type is the last one. */
  lemma LastEquals(expression: string, c: char, d1: string, d2: string)
    requires c == 'S' || c == 'U'
    requires AllDigits(d1) && AllDigits(d2)
    ensures var s := TypeLastLine(expression, c, d1, d2);
      LastIndexOf(s, '=') == 4 + |expression| && s[4 + |expression| + 1..] == [' '] + Token(c, d1, d2)
      && s[2..4 + |expression|] == [' '] + (expression + [' '])
  {
    var s := TypeLastLine(expression, c, d1, d2);
    var token := Token(c, d1, d2);
    var e := 4 + |expression|;
    assert s == ("//" + ([' '] + (expression + [' ']))) + (['='] + ([' '] + token));
    assert s[e] == '=';
    assert s[e + 2..] == token;
    forall k | e < k < |s| ensures s[k] != '=' {
      if k > e + 1 {
        assert s[k] == token[k - e - 2];
        TokenHasNoEquals(c, d1, d2, k - e - 2);
      }
    }
    LastIndexOfIs(s, '=', e);
  }

  lemma TokenAfterEquals(expression: string, c: char, d1: string, d2: string)
    requires c == 'S' || c == 'U'
    requires d1 != [] && AllDigits(d1) && d2 != [] && AllDigits(d2)
    requires PlainExpression(expression)
    requires var s := TypeLastLine(expression, c, d1, d2);
      LastIndexOf(s, '=') == 4 + |expression| && s[4 + |expression| + 1..] == [' '] + Token(c, d1, d2)
      && s[2..4 + |expression|] == [' '] + (expression + [' '])
    ensures MatchTypeLast(TypeLastLine(expression, c, d1, d2)) == Some((Token(c, d1, d2), expression))
  {
    var s := TypeLastLine(expression, c, d1, d2);
    var token := Token(c, d1, d2);
    assert StartsWith(s, "//") by {
      assert s[..2] == "//";
    }
    WholeToken(c, d1, d2);
    LastForm(s, 4 + |expression|, expression, token);
  }

  /** A type token spelled out is read whole. */
  lemma WholeToken(c: char, d1: string, d2: string)
    requires c == 'S' || c == 'U'
    requires d1 != [] && AllDigits(d1) && d2 != [] && AllDigits(d2)
    ensures var token := Token(c, d1, d2); token != [] && token[0] == c && TypeTokenLen(token) == |token|
  {
    var token := Token(c, d1, d2);
    TypeTokenOf(c, d1, d2, []);
    TokenLineSplit(c, d1, d2, []);
    assert token + [] == token;
  }

  /** The second form matches when the last `=` is followed by one blank and
      a type token that ends the line. */
  lemma LastForm(s: string, e: int, expression: string, token: string)
    requires StartsWith(s, "//") && LastIndexOf(s, '=') == e && e >= 3
    requires s[e + 1..] == [' '] + token && token != [] && !IsSpace(token[0])
    requires TypeTokenLen(token) == |token|
    requires s[2..e] == [' '] + (expression + [' ']) && Stripped(expression)
    ensures MatchTypeLast(s) == Some((token, expression))
  {
    var k := NextNonBlank(s, e + 1);
    assert k == e + 2 && s[k..] == token by {
      assert s[e + 1] == ' ' && s[e + 2..] == token && s[e + 2] == token[0];
    }
    assert Strip(s[2..e]) == expression by {
      StripAround(expression);
    }
    LastFormAt(s, e, k);
  }

  /** The second form matches when the type token fills the line after the
      last `=` and its blanks. */
  lemma LastFormAt(t: string, e: int, k: nat)
    requires StartsWith(t, "//") && e == LastIndexOf(t, '=') && e >= 3
    requires k == NextNonBlank(t, e + 1) && TypeTokenLen(t[k..]) == |t[k..]| > 0
    ensures MatchTypeLast(t) == Some((t[k..], Strip(t[2..e])))
  {
  }

  lemma TokenHasNoEquals(c: char, d1: string, d2: string, i: nat)
    requires c == 'S' || c == 'U'
    requires AllDigits(d1) && AllDigits(d2) && i < |Token(c, d1, d2)|
    ensures Token(c, d1, d2)[i] != '='
  {
    var t := Token(c, d1, d2);
    if 1 <= i <= |d1| {
      assert t[i] == d1[i - 1];
    } else if i > |d1| + 1 {
      assert t[i] == d2[i - |d1| - 2];
    }
  }

  /** A stripped text between two blanks strips to itself. */
  lemma StripAround(e: string)
    requires Stripped(e)
    ensures Strip([' '] + (e + [' '])) == e
  {
    BlankBefore(e + [' ']);
    assert (e + [' '])[0] == e[0];
    assert RStrip(e + [' ']) == RStrip(e) by {
      assert (e + [' '])[..|e|] == e;
    }
    assert RStrip(e) == e;
  }

  // ---------------------------------------------------------------------
  // Verilog lines

  /** The text of a line before its first `//`. */
  function CodePart(line: string): (c: string)
    ensures |c| <= |line| && c == line[..|c|]
    ensures !Contains(c, "//")
  {
    var k := Find(line, "//");
    if k >= 0 then
      assert forall j :: 0 <= j && OccursAt(line[..k], "//", j) ==> OccursAt(line, "//", j);
      line[..k]
    else
      line
  }

  /** `parse_verilog_assignment`: without its comment, blanks and trailing
      `;`s, the line splits at the first `<=`, else at the first `=`, into
      the stripped left and right sides. */
  function ParseVerilogAssignment(line: string): (r: Option<(string, string)>)
    ensures r.None? <==> !Contains(RStripChar(Strip(CodePart(line)), ';'), "=")
  {
    var s := RStripChar(Strip(CodePart(line)), ';');
    var a := Find(s, "<=");
    if a >= 0 then
      assert OccursAt(s, "=", a + 1) by { assert s[a + 1..a + 2] == s[a..a + 2][1..]; }
      Some((Strip(s[..a]), Strip(s[a + 2..])))
    else
      var b := Find(s, "=");
      if b >= 0 then Some((Strip(s[..b]), Strip(s[b + 1..]))) else None
  }

  /** What a leftmost `if\s*\(\s*(.+?)\s*\)` search finds at one start. */
  datatype IfMatch = NoMatch | EmptyCondition | Condition(text: string)

  /** The `if (...)` pattern tried at index `q`, letters in either case. The
      condition runs to the first `)` after its first character; when no such
      `)` follows, a single blank before a `)` still matches, as an empty
      condition. */
  function IfMatchAt(s: string, q: nat): (m: IfMatch)
    requires q + 2 <= |s|
    ensures m.Condition? ==> Stripped(m.text)
  {
    if !((s[q] == 'i' || s[q] == 'I') && (s[q + 1] == 'f' || s[q + 1] == 'F')) then NoMatch
    else ParenMatch(s, NextNonBlank(s, q + 2))
  }

  /** The rest of the pattern from `o`, just after `if` and its blanks: a
      `(`, blanks, and the condition. */
  function ParenMatch(s: string, o: nat): (m: IfMatch)
    requires o <= |s|
    ensures m.Condition? ==> Stripped(m.text)
  {
    if o >= |s| || s[o] != '(' then NoMatch
    else ConditionMatch(s, o + 1, NextNonBlank(s, o + 1))
  }

  /** The condition, which starts at `g`, the first non-blank at or after
      `start`, just after the `(`. */
  function ConditionMatch(s: string, start: nat, g: nat): (m: IfMatch)
    requires start <= g <= |s| && (g == |s| || !IsSpace(s[g]))
    ensures m.Condition? ==> Stripped(m.text)
  {
    var j := FindFrom(s, ")", g + 1);
    if j >= 0 then
      assert s[g..j][0] == s[g] && LStrip(s[g..j]) == s[g..j];
      Condition(Strip(s[g..j]))
    else if g > start && g < |s| && s[g] == ')' then EmptyCondition
    else NoMatch
  }

  /** The leftmost start at or after `q` where the `if (...)` pattern matches. */
  function IfSearch(s: string, q: nat): (m: IfMatch)
    ensures m.Condition? ==> Stripped(m.text)
    decreases |s| - q
  {
    if q + 2 > |s| then NoMatch
    else
      match IfMatchAt(s, q)
      case NoMatch => IfSearch(s, q + 1)
      case found => found
  }

  /** The characters that may not come just before the `=` of a blocking
      assignment. */
  predicate IsComparisonChar(c: char) { c == '=' || c == '!' || c == '<' || c == '>' }

  /** The `=` of a blocking assignment at `p`: not preceded by `=`, `!`, `<`
      or `>`, and followed by something besides blanks. */
  predicate AssignsAt(s: string, p: nat) {
    p < |s| && s[p] == '=' && (p == 0 || !IsComparisonChar(s[p - 1]))
    && p + 1 + Span(s[p + 1..], IsSpace) < |s|
  }

  /** The leftmost index at or after `p` where `AssignsAt` holds, or -1. */
  function AssignmentFrom(s: string, p: nat): (r: int)
    ensures r == -1 || (p <= r && AssignsAt(s, r))
    ensures forall k :: p <= k && (r == -1 || k < r) ==> !AssignsAt(s, k)
    decreases |s| - p
  {
    if p >= |s| then -1
    else if AssignsAt(s, p) then p
    else AssignmentFrom(s, p + 1)
  }

  /** The line without its comment, blanks and trailing `;`s, as
      `extract_verilog_expression` cleans it. Each intermediate text that
      is empty leaves every later one empty. */
  function CleanLine(line: string): string {
    Strip(RStripChar(Strip(CodePart(Strip(line))), ';'))
  }

  /** `extract_verilog_expression`: a cleaned line that is empty or holds `!`
      or `?` gives nothing; otherwise the right side of the first `<=`, else
      of the first plain `=`, else the condition of an `if (...)`, else the
      whole cleaned line. */
  function ExtractVerilogExpression(line: string): (r: Option<string>)
    ensures r.Some? ==> Stripped(r.value)
  {
    var s := CleanLine(line);
    if s == [] || '!' in s || '?' in s then None else ExpressionOf(s)
  }

  /** The expression carried by the non-empty cleaned line `s`. */
  function ExpressionOf(s: string): (r: Option<string>)
    requires Stripped(s)
    ensures r.Some? ==> Stripped(r.value)
  {
    if Contains(s, "<=") then
      var rhs := Strip(s[Find(s, "<=") + 2..]);
      if rhs == [] then None else Some(rhs)
    else
      var p := AssignmentFrom(s, 0);
      if '=' in s && s[0] != '=' && p >= 0 then
        AssignedText(s, p);
        Some(Strip(s[p + 1..]))
      else
        match IfSearch(s, 0)
        case Condition(text) => Some(text)
        case _ => Some(s)
  }

  lemma AssignedText(s: string, p: nat)
    requires AssignsAt(s, p)
    ensures Strip(s[p + 1..]) != []
  {
    var t := s[p + 1..];
    var w := Span(t, IsSpace);
    assert !IsSpace(t[w]);
    LStripSpan(t);
    assert LStrip(t) == t[w..];
    assert t[w..][0] == t[w];
  }
  /** `lhs <= rhs;` or `lhs = rhs;`, with one blank around the operator. */
  function AssignmentLine(lhs: string, op: string, rhs: string): string {
    lhs + ([' '] + (op + ([' '] + (rhs + [';']))))
  }

  /** The same line without its `;`. */
  function AssignmentBody(lhs: string, op: string, rhs: string): string {
    lhs + ([' '] + (op + ([' '] + rhs)))
  }

  /** A plain assignment target: no operator or comment characters. */
  predicate Target(lhs: string) {
    Stripped(lhs) && '/' !in lhs && '<' !in lhs && '=' !in lhs
  }

  /** A right side that the line's comment, `;` and operator rules leave whole. */
  predicate Source(rhs: string) {
    Stripped(rhs) && !Contains(rhs, "//") && rhs[|rhs| - 1] != ';' && rhs[|rhs| - 1] != '/'
  }

  /** The operators the source splits on, with a right side they leave whole
      (for `=`: one without a `<=` that would be found first). */
  predicate Operator(op: string, rhs: string) {
    op == "<=" || (op == "=" && !Contains(rhs, "<="))
  }

  /** An assignment line splits back into its two sides. */
  lemma ParseAssignmentLine(lhs: string, op: string, rhs: string)
    requires Target(lhs) && Source(rhs) && Operator(op, rhs)
    ensures ParseVerilogAssignment(AssignmentLine(lhs, op, rhs)) == Some((lhs, rhs))
  {
    AssignmentCleaned(lhs, op, rhs);
    var s := AssignmentBody(lhs, op, rhs);
    assert RStripChar(Strip(CodePart(AssignmentLine(lhs, op, rhs))), ';') == s;
    AssignmentSplit(lhs, op, rhs);
    StripBeforeBlank(lhs);
    StripAfterBlank(rhs);
  }

  /** The expression extracted from an assignment line is its right side. */
  lemma ExtractAssignmentLine(lhs: string, op: string, rhs: string)
    requires Target(lhs) && Source(rhs) && Operator(op, rhs)
    requires '!' !in lhs + rhs && '?' !in lhs + rhs
    ensures ExtractVerilogExpression(AssignmentLine(lhs, op, rhs)) == Some(rhs)
  {
    AssignmentCleaned(lhs, op, rhs);
    var s := AssignmentBody(lhs, op, rhs);
    assert CleanLine(AssignmentLine(lhs, op, rhs)) == s;
    AssignmentChars(lhs, op, rhs);
    AssignmentExpression(lhs, op, rhs);
  }

  lemma AssignmentChars(lhs: string, op: string, rhs: string)
    requires Operator(op, rhs)
    requires '!' !in lhs + rhs && '?' !in lhs + rhs
    ensures var s := AssignmentBody(lhs, op, rhs); '!' !in s && '?' !in s
  {
    var s := AssignmentBody(lhs, op, rhs);
    forall i | 0 <= i < |s| ensures s[i] != '!' && s[i] != '?' {
      if i < |lhs| {
        assert s[i] == (lhs + rhs)[i];
      } else if i >= |lhs| + |op| + 2 {
        assert s[i] == (lhs + rhs)[i - |op| - 2];
      }
    }
  }

  lemma AssignmentExpression(lhs: string, op: string, rhs: string)
    requires Target(lhs) && Source(rhs) && Operator(op, rhs)
    ensures var s := AssignmentBody(lhs, op, rhs); Stripped(s) && ExpressionOf(s) == Some(rhs)
  {
    var s := AssignmentBody(lhs, op, rhs);
    AssignmentCleaned(lhs, op, rhs);
    AssignmentSplit(lhs, op, rhs);
    StripAfterBlank(rhs);
    if op == "=" {
      AssignmentTarget(lhs, rhs);
    }
  }

  /** In `lhs = rhs` the `=` after the target is the assigning one. */
  lemma AssignmentTarget(lhs: string, rhs: string)
    requires Target(lhs) && Stripped(rhs)
    ensures var s := AssignmentBody(lhs, "=", rhs);
      '=' in s && s[0] != '=' && AssignmentFrom(s, 0) == |lhs| + 1
  {
    var s := AssignmentBody(lhs, "=", rhs);
    var p := |lhs| + 1;
    assert AssignsAt(s, p) by {
      assert s[p] == '=' && s[p - 1] == ' ';
      assert s[p + 1..] == [' '] + rhs;
      BlankBefore(rhs);
    }
    assert s[0] == lhs[0];
    NoAssignmentBefore(lhs, rhs);
    FirstAssignment(s, p);
  }

  /** An assigning `=` with no `=` before it is the one the search finds. */
  lemma FirstAssignment(s: string, p: nat)
    requires AssignsAt(s, p)
    requires forall k :: 0 <= k < p ==> s[k] != '='
    ensures AssignmentFrom(s, 0) == p
  {
    var r := AssignmentFrom(s, 0);
    assert r != -1 && r <= p;
  }

  lemma NoAssignmentBefore(lhs: string, rhs: string)
    requires Target(lhs)
    ensures var s := AssignmentBody(lhs, "=", rhs); forall k :: 0 <= k <= |lhs| ==> s[k] != '='
  {
    var s := AssignmentBody(lhs, "=", rhs);
    assert s[..|lhs| + 1] == lhs + [' '];
    forall k | 0 <= k <= |lhs| ensures s[k] != '=' {
      assert s[k] == (lhs + [' '])[k];
    }
  }

  /** The operator is found just after the target and its blank. */
  lemma AssignmentSplit(lhs: string, op: string, rhs: string)
    requires Target(lhs) && Source(rhs) && Operator(op, rhs)
    ensures var s := AssignmentBody(lhs, op, rhs);
      (Contains(s, "<=") <==> op == "<=")
      && Find(s, op) == |lhs| + 1 && s[..|lhs| + 1] == lhs + [' '] && s[|lhs| + 1 + |op|..] == [' '] + rhs
  {
    var s := AssignmentBody(lhs, op, rhs);
    var p := |lhs| + 1;
    assert s[p..p + |op|] == op;
    forall j | 0 <= j < p ensures !OccursAt(s, op, j) {
      assert s[j] == if j < |lhs| then lhs[j] else ' ';
    }
    FindIs(s, op, p);
    if op == "=" {
      NoLessEqual(lhs, rhs);
    }
  }

  lemma NoLessEqual(lhs: string, rhs: string)
    requires Target(lhs) && Stripped(rhs) && !Contains(rhs, "<=")
    ensures !Contains(AssignmentBody(lhs, "=", rhs), "<=")
  {
    var s := AssignmentBody(lhs, "=", rhs);
    var st := |lhs| + 3;
    assert s[st..] == rhs;
    assert s[..st] == lhs + " = ";
    forall k | 0 <= k ensures !OccursAt(s, "<=", k) {
      if k < st && k + 2 <= |s| {
        assert s[k] == (lhs + " = ")[k];
      } else if k >= st && k + 2 <= |s| {
        assert rhs[k - st..k - st + 2] == s[k..k + 2];
        assert !OccursAt(rhs, "<=", k - st);
      }
    }
  }

  /** An assignment line has no comment and no surrounding blanks; its only
      trailing `;` is the final one. */
  lemma AssignmentCleaned(lhs: string, op: string, rhs: string)
    requires Target(lhs) && Source(rhs) && Operator(op, rhs)
    ensures var line := AssignmentLine(lhs, op, rhs); var s := AssignmentBody(lhs, op, rhs);
      Strip(line) == line && CodePart(line) == line && RStripChar(line, ';') == s && Strip(s) == s
  {
    var line := AssignmentLine(lhs, op, rhs);
    var s := AssignmentBody(lhs, op, rhs);
    assert line == s + [';'];
    assert s[|s| - 1] == rhs[|rhs| - 1];
    assert line[..|line| - 1] == s;
    StripUnchanged(line);
    StripUnchanged(s);
    AssignmentNoComment(lhs, op, rhs);
  }

  lemma AssignmentNoComment(lhs: string, op: string, rhs: string)
    requires Target(lhs) && Source(rhs) && Operator(op, rhs)
    ensures Find(AssignmentLine(lhs, op, rhs), "//") == -1
  {
    var line := AssignmentLine(lhs, op, rhs);
    var front := lhs + ([' '] + (op + [' ']));
    var back := rhs + [';'];
    assert line == front + back;
    assert '/' !in front;
    forall k | 0 <= k && k + 2 <= |line| ensures line[k] != '/' || line[k + 1] != '/' {
      if k < |front| {
        assert line[k] == front[k];
      } else if k + 2 <= |front| + |rhs| {
        assert line[k..k + 2] == rhs[k - |front|..k - |front| + 2];
        assert !OccursAt(rhs, "//", k - |front|);
      } else {
        assert line[k + 1] == ';';
      }
    }
    PairNotFound(line, '/', '/');
  }

  /** `if (cond)`. */
  function IfLine(cond: string): string {
    "if (" + (cond + [')'])
  }

  /** A condition that the line's cleaning and the `if` pattern leave whole. */
  predicate PlainCondition(cond: string) {
    Stripped(cond) && !Contains(cond, "//")
    && ')' !in cond && '=' !in cond && '!' !in cond && '?' !in cond
  }

  /** The expression extracted from `if (cond)` is the condition. */
  lemma ExtractIfLine(cond: string)
    requires PlainCondition(cond)
    ensures ExtractVerilogExpression(IfLine(cond)) == Some(cond)
  {
    var line := IfLine(cond);
    IfLineCleaned(cond);
    assert !Contains(line, "<=") by {
      forall k | 0 <= k ensures !OccursAt(line, "<=", k) {
        if k + 2 <= |line| {
          assert line[k..k + 2][1] == line[k + 1];
        }
      }
    }
    IfLineMatches(cond);
  }

  lemma IfLineCleaned(cond: string)
    requires PlainCondition(cond)
    ensures var line := IfLine(cond);
      CleanLine(line) == line && Stripped(line) && '!' !in line && '?' !in line && '=' !in line
  {
    var line := IfLine(cond);
    IfLineNoComment(cond);
    assert line[0] == 'i' && line[|line| - 1] == ')';
    StripUnchanged(line);
    assert CodePart(line) == line;
    assert RStripChar(line, ';') == line;
    assert line == "if (" + (cond + [')']);
  }

  lemma IfLineNoComment(cond: string)
    requires PlainCondition(cond)
    ensures Find(IfLine(cond), "//") == -1
  {
    var line := IfLine(cond);
    var front := "if (";
    assert line == front + (cond + [')']);
    forall k | 0 <= k && k + 2 <= |line| ensures line[k] != '/' || line[k + 1] != '/' {
      if k < |front| {
        assert line[k] == front[k];
      } else if k + 2 <= |front| + |cond| {
        assert line[k..k + 2] == cond[k - |front|..k - |front| + 2];
        assert !OccursAt(cond, "//", k - |front|);
      } else {
        assert line[k + 1] == ')';
      }
    }
    PairNotFound(line, '/', '/');
  }

  lemma IfLineMatches(cond: string)
    requires PlainCondition(cond)
    ensures IfSearch(IfLine(cond), 0) == Condition(cond)
  {
    IfLineMatchesAtStart(cond);
  }

  lemma IfLineMatchesAtStart(cond: string)
    requires PlainCondition(cond)
    ensures IfMatchAt(IfLine(cond), 0) == Condition(cond)
  {
    var line := IfLine(cond);
    IfLineParts(cond);
    IfLineParen(cond);
    StripUnchanged(cond);
    ConditionFound(line, 0, 3, 4, 4 + |cond|);
    assert line[4..4 + |cond|] == cond;
  }

  /** The pattern matches at `q` when `if`, blanks and `(` start there and a
      `)` follows the first non-blank after the parenthesis. */
  lemma ConditionFound(s: string, q: nat, o: nat, g: nat, j: int)
    requires q + 2 <= |s| && (s[q] == 'i' || s[q] == 'I') && (s[q + 1] == 'f' || s[q + 1] == 'F')
    requires o == NextNonBlank(s, q + 2) && o < |s| && s[o] == '('
    requires g == NextNonBlank(s, o + 1)
    requires j == FindFrom(s, ")", g + 1) && g < j
    ensures IfMatchAt(s, q) == Condition(Strip(s[g..j]))
  {
    ConditionStep(s, o + 1, g, j);
    ParenStep(s, o, g);
  }

  lemma ConditionStep(s: string, start: nat, g: nat, j: int)
    requires start <= |s| && g == NextNonBlank(s, start)
    requires j == FindFrom(s, ")", g + 1) && g < j
    ensures ConditionMatch(s, start, g) == Condition(Strip(s[g..j]))
  {
  }

  lemma ParenStep(s: string, o: nat, g: nat)
    requires o < |s| && s[o] == '(' && g == NextNonBlank(s, o + 1)
    ensures ParenMatch(s, o) == ConditionMatch(s, o + 1, g)
  {
  }

  lemma IfLineParts(cond: string)
    requires Stripped(cond)
    ensures var line := IfLine(cond);
      line[0] == 'i' && line[1] == 'f' && NextNonBlank(line, 2) == 3 && line[3] == '('
      && NextNonBlank(line, 4) == 4 && line[4..4 + |cond|] == cond
  {
    var line := IfLine(cond);
    assert line[2] == ' ' && line[3] == '(' && line[4] == cond[0];
    assert line[4..4 + |cond|] == cond;
  }

  lemma IfLineParen(cond: string)
    requires cond != [] && ')' !in cond
    ensures FindFrom(IfLine(cond), ")", 5) == 4 + |cond|
  {
    var line := IfLine(cond);
    var e := 4 + |cond|;
    assert line[e] == ')';
    assert OccursAt(line, ")", e) by { assert line[e..e + 1] == [line[e]]; }
    forall j | 5 <= j < e ensures !OccursAt(line, ")", j) {
      assert line[j] == cond[j - 4];
      assert line[j..j + 1][0] == line[j];
    }
    FindFromIs(line, ")", 5, e);
  }
}
