/** The fixed-point type domain of the checker: signedness, total bits and
    fractional bits, the `S/U<w>F<f>` token printer and parser. */
module FixedPoint {
  import opened Text
  import opened Errors

  /** A fixed-point type. Widths are plain integers: the operator rules can
      drive them to zero or below (a right shift by more than the width, a
      division of fractions), and the source never checks them. */
  datatype Ty = Ty(signed: bool, total: int, frac: int) {
    /** Integer bits, counting the sign bit of a signed type. */
    function IntBits(): (n: int)
      ensures n + frac == total
    {
      total - frac
    }
  }

  /** The binary operators of the expression language. */
  datatype Op = Add | Sub | Mul | Div | Shl | Shr | Shrs {
    /** The operator as it is written, and as it appears in messages and texts. */
    function Symbol(): (s: string)
      ensures 1 <= |s| <= 3
    {
      match this
      case Add => "+"
      case Sub => "-"
      case Mul => "*"
      case Div => "/"
      case Shl => "<<"
      case Shr => ">>"
      case Shrs => ">>>"
    }
  }

  /** The `S12F11` / `U8F0` rendering of a type. */
  function TypeString(t: Ty): (s: string)
    ensures s != [] && (s[0] == 'S' <==> t.signed) && (s[0] == 'U' <==> !t.signed)
  {
    (if t.signed then "S" else "U") + IntToString(t.total) + "F" + IntToString(t.frac)
  }

  /** Length of the type token `[SU]<digits>F<digits>` at the start of `s`, or 0. */
  function TypeTokenLen(s: string): (n: nat)
    ensures n <= |s|
    ensures n > 0 ==> n >= 4 && (s[0] == 'S' || s[0] == 'U')
  {
    if s == [] || (s[0] != 'S' && s[0] != 'U') then 0
    else
      var d1 := Span(s[1..], IsDigit);
      if d1 == 0 || 1 + d1 >= |s| || s[1 + d1] != 'F' then 0
      else
        var d2 := Span(s[2 + d1..], IsDigit);
        if d2 == 0 then 0 else 2 + d1 + d2
  }

  /** Parse a type token. Like the source's `re.match`, only a prefix
      `[SU]<digits>F<digits>` of `s` is examined; a signed token is rejected
      when its two digit STRINGS are equal. */
  function ParseType(s: string): (r: Result<Ty>)
    ensures r.Ok? ==> r.value.total >= 0 && r.value.frac >= 0
    ensures r.Ok? ==> |s| >= 4 && r.value.signed == (s[0] == 'S')
    ensures r.Err? ==> r.error == InvalidType(s)
  {
    if |s| == 0 || (s[0] != 'S' && s[0] != 'U') then Err(InvalidType(s))
    else
      var n1 := Span(s[1..], IsDigit);
      if n1 == 0 || 1 + n1 >= |s| || s[1 + n1] != 'F' then Err(InvalidType(s))
      else
        var rest := s[2 + n1..];
        var n2 := Span(rest, IsDigit);
        if n2 == 0 then Err(InvalidType(s))
        else
          var totalDigits := s[1..1 + n1];
          var fracDigits := rest[..n2];
          if s[0] == 'S' && totalDigits == fracDigits then Err(InvalidType(s))
          else Ok(Ty(s[0] == 'S', DecimalValue(totalDigits), DecimalValue(fracDigits)))
  }

  /** The token `<c><total>F<frac>` spelled with the given digit strings. */
  function Token(c: char, total: string, frac: string): string {
    [c] + total + "F" + frac
  }

  lemma TokenParts(c: char, d1: string, d2: string)
    requires d1 != [] && AllDigits(d1) && d2 != [] && AllDigits(d2)
    ensures var s := Token(c, d1, d2);
      s[0] == c && Span(s[1..], IsDigit) == |d1| && s[1..1 + |d1|] == d1 && s[1 + |d1|] == 'F'
      && s[2 + |d1|..] == d2 && Span(d2, IsDigit) == |d2|
  {
    var s := Token(c, d1, d2);
    TokenSlices(c, d1, d2);
    SpanOfRun(d1, "F" + d2, IsDigit);
    AllDigitsSpan(d2);
  }

  lemma TokenSlices(c: char, d1: string, d2: string)
    ensures var s := Token(c, d1, d2);
      s[0] == c && s[1..] == d1 + ("F" + d2) && s[1..1 + |d1|] == d1 && s[1 + |d1|] == 'F'
      && s[2 + |d1|..] == d2
  {
  }

  lemma AllDigitsSpan(d: string)
    requires AllDigits(d)
    ensures Span(d, IsDigit) == |d|
  {
    SpanOfRun(d, "", IsDigit);
    assert d + "" == d;
  }

  /** What the parser makes of a well-formed token: the two digit strings'
      decimal values, unless the token is signed with equal digit strings. */
  lemma ParseToken(c: char, d1: string, d2: string)
    requires c == 'S' || c == 'U'
    requires d1 != [] && AllDigits(d1) && d2 != [] && AllDigits(d2)
    ensures ParseType(Token(c, d1, d2)) ==
      if c == 'S' && d1 == d2 then Err(InvalidType(Token(c, d1, d2)))
      else Ok(Ty(c == 'S', DecimalValue(d1), DecimalValue(d2)))
  {
    var s := Token(c, d1, d2);
    TokenParts(c, d1, d2);
    var rest := s[2 + |d1|..];
    assert rest == d2;
    assert rest[..|d2|] == d2;
  }

  /** A signed token whose total and frac digit strings are identical is rejected. */
  lemma RejectsSignedWithoutIntegerBits(d: string)
    requires d != [] && AllDigits(d)
    ensures ParseType(Token('S', d, d)).Err?
  {
    ParseToken('S', d, d);
  }

  /** Every canonical token (no leading zeros, not signed with equal digit
      strings) is accepted, and printing the parsed type gives the token back. */
  lemma PrintParseRoundTrip(c: char, d1: string, d2: string)
    requires c == 'S' || c == 'U'
    requires CanonicalDecimal(d1) && CanonicalDecimal(d2)
    requires !(c == 'S' && d1 == d2)
    ensures ParseType(Token(c, d1, d2)).Ok?
    ensures TypeString(ParseType(Token(c, d1, d2)).value) == Token(c, d1, d2)
  {
    ParseToken(c, d1, d2);
    DecimalRoundTrip(d1);
    DecimalRoundTrip(d2);
    assert (if c == 'S' then "S" else "U") == [c];
  }

  /** Every type with non-negative widths that leaves a signed type at least one
      integer bit prints to a token that parses back to it. */
  lemma ParsePrintRoundTrip(t: Ty)
    requires t.total >= 0 && t.frac >= 0
    requires !(t.signed && t.total == t.frac)
    ensures ParseType(TypeString(t)) == Ok(t)
  {
    var c := if t.signed then 'S' else 'U';
    var d1, d2 := NatToString(t.total), NatToString(t.frac);
    assert TypeString(t) == Token(c, d1, d2);
    if t.signed && d1 == d2 {
      NatToStringValue(t.total);
      NatToStringValue(t.frac);
      assert false;
    }
    ParseToken(c, d1, d2);
    NatToStringValue(t.total);
    NatToStringValue(t.frac);
  }

  /** The rejection compares digit strings, not values: `S08F8` is accepted
      although it describes a signed type with no integer bit. */
  lemma LeadingZeroEscapesSignedCheck()
    ensures ParseType("S08F8") == Ok(Ty(true, 8, 8))
    ensures ParseType("S08F8").value.IntBits() == 0
  {
    TokenParts('S', "08", "8");
    assert Token('S', "08", "8") == "S08F8";
    assert DecimalValue("08") == 8;
    assert DecimalValue("8") == 8;
  }

  /** Only the prefix is examined: trailing text after the token is ignored. */
  lemma TrailingTextIgnored()
    ensures ParseType("U8F0x") == Ok(Ty(false, 8, 0))
  {
    var s := "U8F0x";
    SpanOfRun("8", "F0x", IsDigit);
    assert s[1..] == "8" + "F0x";
    SpanOfRun("0", "x", IsDigit);
    assert s[3..] == "0" + "x";
    assert s[1..2] == "8" && s[3..][..1] == "0";
  }

  /** The fractional-bit count written in a type token. */
  function TokenFrac(tok: string): (f: nat)
    requires TypeTokenLen(tok) > 0
  {
    var d1 := Span(tok[1..], IsDigit);
    DecimalValue(tok[2 + d1..][..Span(tok[2 + d1..], IsDigit)])
  }

  /** A type token `<c><d1>F<d2>` followed by `tail`. */
  function TokenLine(c: char, d1: string, d2: string, tail: string): string {
    [c] + (d1 + (['F'] + (d2 + tail)))
  }

  lemma TypeTokenOf(c: char, d1: string, d2: string, tail: string)
    requires c == 'S' || c == 'U'
    requires d1 != [] && AllDigits(d1) && d2 != [] && AllDigits(d2)
    requires tail == [] || !IsDigit(tail[0])
    ensures var s := TokenLine(c, d1, d2, tail); TypeTokenLen(s) == |d1| + |d2| + 2 && TokenFrac(s) == DecimalValue(d2)
  {
    var s := TokenLine(c, d1, d2, tail);
    var x := d2 + tail;
    assert s[1..] == d1 + (['F'] + x);
    DigitsThen(d1, 'F', x);
    assert s[2 + |d1|..] == x;
    SpanOfRun(d2, tail, IsDigit);
    assert x[..|d2|] == d2;
  }

  /** A token line is the token followed by its tail. */
  lemma TokenLineSplit(c: char, d1: string, d2: string, tail: string)
    ensures TokenLine(c, d1, d2, tail) == Token(c, d1, d2) + tail
    ensures |Token(c, d1, d2)| == |d1| + |d2| + 2
  {
  }
}
