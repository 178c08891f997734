/** Decoding of number literals: the sized Verilog forms `<n>'h..`, `<n>'d..`,
    `<n>'b..`, `<n>'sd..` and bare decimals, with Python's `int(s, base)`
    rules for the digit part. */
module Literals {
  import opened Text
  import opened Numbers
  import opened Errors
  import opened FixedPoint

  /** A decoded literal: its integer value and the type the checker gives it. */
  datatype Literal = Literal(value: int, ty: Ty)

  datatype Format = Hex | Dec | Bin | SignedDec

  function Base(f: Format): (b: nat)
    ensures b == 2 || b == 10 || b == 16
  {
    match f
    case Hex => 16
    case Bin => 2
    case Dec => 10
    case SignedDec => 10
  }

  /** Value of an ASCII digit or letter in bases up to 36; letters of either case. */
  function DigitIn(c: char): (v: int)
    ensures -1 <= v < 36
  {
    if '0' <= c <= '9' then c as int - '0' as int
    else if 'a' <= c <= 'z' then c as int - 'a' as int + 10
    else if 'A' <= c <= 'Z' then c as int - 'A' as int + 10
    else -1
  }

  predicate IsDigitOf(c: char, base: nat) {
    0 <= DigitIn(c) < base
  }

  /** Digits of `base`, single underscores allowed only between two digits. */
  predicate WellFormedDigits(s: string, base: nat) {
    s != [] && s[0] != '_' && s[|s| - 1] != '_'
    && (forall i :: 0 <= i < |s| ==> s[i] == '_' || IsDigitOf(s[i], base))
    && (forall i :: 0 <= i < |s| - 1 ==> !(s[i] == '_' && s[i + 1] == '_'))
  }

  /** Value of the digits of `s` in `base`, underscores skipped. */
  function DigitsValue(s: string, base: nat): (v: nat)
    requires forall i :: 0 <= i < |s| ==> s[i] == '_' || IsDigitOf(s[i], base)
  {
    if s == [] then 0
    else if s[|s| - 1] == '_' then DigitsValue(s[..|s| - 1], base)
    else
      var d := DigitIn(s[|s| - 1]);
      assert IsDigitOf(s[|s| - 1], base);
      base * DigitsValue(s[..|s| - 1], base) + d
  }

  /** The radix prefix `int()` accepts for an explicit base: `0x` for 16, `0b` for 2. */
  predicate HasPrefix(s: string, base: nat) {
    |s| >= 2 && s[0] == '0'
    && ((base == 16 && (s[1] == 'x' || s[1] == 'X')) || (base == 2 && (s[1] == 'b' || s[1] == 'B')))
  }

  /** Python's `int(s, base)` on a run of word characters: an optional radix
      prefix, then one optional underscore after it, then well-formed digits. */
  function PyInt(s: string, base: nat): (r: Option<nat>)
    ensures r.Some? ==> !HasPrefix(s, base) ==> WellFormedDigits(s, base)
  {
    var afterPrefix := if HasPrefix(s, base) then s[2..] else s;
    var body := if HasPrefix(s, base) && afterPrefix != [] && afterPrefix[0] == '_' then afterPrefix[1..] else afterPrefix;
    if WellFormedDigits(body, base) then Some(DigitsValue(body, base)) else None
  }

  /** A decimal numeral is read by `int(s, 10)` as its value. */
  lemma {:induction false} DecimalDigitsValue(s: string)
    requires AllDigits(s)
    ensures forall i :: 0 <= i < |s| ==> IsDigitOf(s[i], 10)
    ensures DigitsValue(s, 10) == DecimalValue(s)
    decreases |s|
  {
    if s != [] {
      DecimalDigitsValue(s[..|s| - 1]);
    }
  }

  lemma PyIntDecimal(s: string)
    requires s != [] && AllDigits(s)
    ensures PyInt(s, 10) == Some(DecimalValue(s))
  {
    DecimalDigitsValue(s);
  }

  /** The lexical pieces the source's number pattern `(\d+)('(d|sd|h|b)(\w+))?`
      extracts from a token: the size digits and, when the quote part matches,
      the format and the value word. */
  datatype Pieces = Pieces(size: string, sized: Option<(Format, string)>)

  function FormatAt(s: string, k: nat): (r: Option<(Format, nat)>)
    ensures r.Some? ==> k + r.value.1 <= |s| && 1 <= r.value.1 <= 2
  {
    if k >= |s| then None
    else if s[k] == 'd' then Some((Dec, 1))
    else if s[k] == 's' && k + 1 < |s| && s[k + 1] == 'd' then Some((SignedDec, 2))
    else if s[k] == 'h' then Some((Hex, 1))
    else if s[k] == 'b' then Some((Bin, 1))
    else None
  }

  /** The regex match of the number pattern at the start of `tok`, or None. */
  function Split(tok: string): (r: Option<Pieces>)
    ensures r.Some? ==> r.value.size != [] && AllDigits(r.value.size) && StartsWith(tok, r.value.size)
    ensures r.Some? && r.value.sized.Some? ==>
              r.value.sized.value.1 != []
              && forall i :: 0 <= i < |r.value.sized.value.1| ==> IsWordChar(r.value.sized.value.1[i])
  {
    var n := Span(tok, IsDigit);
    if n == 0 then None
    else
      var size := tok[..n];
      if n < |tok| && tok[n] == '\'' && FormatAt(tok, n + 1).Some? then
        var (f, len) := FormatAt(tok, n + 1).value;
        var w := Span(tok[n + 1 + len..], IsWordChar);
        if w >= 1 then Some(Pieces(size, Some((f, tok[n + 1 + len..][..w]))))
        else Some(Pieces(size, None))
      else Some(Pieces(size, None))
  }

  /** Two's-complement reading of an `sd` value: values above the largest
      positive `size`-bit number wrap down by 2^size. */
  function SignedReinterpret(v: nat, size: nat): (r: int)
    requires size >= 1
    ensures v < Pow2(size) ==> -(Pow2(size - 1) as int) <= r < Pow2(size - 1)
    ensures r == v || r == v - Pow2(size)
  {
    if v > Pow2(size - 1) - 1 then v - Pow2(size) else v
  }

  /** A decimal-point number, which the source reads as a float. */
  predicate IsRealLiteral(tok: string) { Contains(tok, ".") }

  /** The `number` rule on a literal token. A decimal-point token has no
      width in the source and is not decoded here; a malformed digit part,
      and an `sd` literal of size 0 (a negative shift count in the source),
      fail. */
  function DecodeNumber(tok: string): (r: Result<Literal>)
    ensures IsRealLiteral(tok) <==> r == Err(RealLiteral(tok))
    ensures r.Ok? ==> r.value.ty.frac == 0 && r.value.ty.total >= 0
    ensures r.Ok? && r.value.ty.signed ==> r.value.ty.total >= 1
  {
    if IsRealLiteral(tok) then Err(RealLiteral(tok))
    else match Split(tok)
      case None => Err(BadLiteral(tok))
      case Some(Pieces(sizeDigits, sized)) =>
        var size := DecimalValue(sizeDigits);
        match sized
        case None => Ok(Literal(size, Ty(false, 32, 0)))
        case Some((f, word)) =>
          match PyInt(word, Base(f))
          case None => Err(BadLiteral(tok))
          case Some(v) =>
            if f == SignedDec then
              if size == 0 then Err(BadLiteral(tok))
              else Ok(Literal(SignedReinterpret(v, size), Ty(true, size, 0)))
            else Ok(Literal(v, Ty(false, size, 0)))
  }

  /** The pieces of a well-formed sized token `<size>'<fmt><word>`. */
  lemma SplitSized(size: string, fmt: string, f: Format, word: string)
    requires size != [] && AllDigits(size)
    requires fmt == (match f case Hex => "h" case Dec => "d" case Bin => "b" case SignedDec => "sd")
    requires word != [] && forall i :: 0 <= i < |word| ==> IsWordChar(word[i])
    ensures Split(size + "'" + fmt + word) == Some(Pieces(size, Some((f, word))))
  {
    var tok := size + "'" + fmt + word;
    SpanOfRun(size, "'" + fmt + word, IsDigit);
    assert tok == size + ("'" + fmt + word);
    assert tok[..|size|] == size;
    var n := |size|;
    assert tok[n] == '\'';
    assert tok[n + 1..] == fmt + word;
    assert FormatAt(tok, n + 1) == Some((f, |fmt|));
    assert tok[n + 1 + |fmt|..] == word;
    SpanOfRun(word, "", IsWordChar);
    assert word + "" == word;
  }

  /** `<n>'sd<v>` with a decimal `v`: a signed n-bit integer literal whose value
      is v, or v - 2^n when v is above the largest positive n-bit number. */
  lemma SignedDecimalLiteral(size: string, word: string)
    requires size != [] && AllDigits(size) && DecimalValue(size) >= 1
    requires word != [] && AllDigits(word)
    ensures var n := DecimalValue(size); var v := DecimalValue(word);
      DecodeNumber(size + "'sd" + word)
        == Ok(Literal(if v > Pow2(n - 1) - 1 then v - Pow2(n) else v, Ty(true, n, 0)))
  {
    SignedDecode(size, word);
  }

  lemma SignedDecode(size: string, word: string)
    requires size != [] && AllDigits(size) && DecimalValue(size) >= 1
    requires word != [] && AllDigits(word)
    ensures DecodeNumber(size + "'sd" + word)
      == Ok(Literal(SignedReinterpret(DecimalValue(word), DecimalValue(size)), Ty(true, DecimalValue(size), 0)))
  {
    var tok := size + "'sd" + word;
    assert size + "'" + "sd" + word == tok;
    SplitSized(size, "sd", SignedDec, word);
    PyIntDecimal(word);
    SignedNoDot(size, word);
    DecodeSigned(tok, size, word, DecimalValue(word));
  }

  lemma SignedNoDot(size: string, word: string)
    requires AllDigits(size) && AllDigits(word)
    ensures !Contains(size + "'sd" + word, ".")
  {
    var tok := size + "'sd" + word;
    forall i | 0 <= i < |tok| ensures tok[i] != '.' {
      if i < |size| {
        assert tok[i] == size[i];
      } else if i >= |size| + 3 {
        assert tok[i] == word[i - |size| - 3];
      }
    }
    NoDotIn(tok);
  }

  lemma DecodeSigned(tok: string, size: string, word: string, v: nat)
    requires !Contains(tok, ".") && Split(tok) == Some(Pieces(size, Some((SignedDec, word))))
    requires PyInt(word, 10) == Some(v) && DecimalValue(size) >= 1
    ensures DecodeNumber(tok) == Ok(Literal(SignedReinterpret(v, DecimalValue(size)), Ty(true, DecimalValue(size), 0)))
  {
  }

  /** `<n>'h`, `<n>'d` and `<n>'b` literals are unsigned n-bit integers. */
  lemma UnsignedSizedLiteral(size: string, fmt: string, f: Format, word: string)
    requires size != [] && AllDigits(size)
    requires f != SignedDec
    requires fmt == (match f case Hex => "h" case Dec => "d" case Bin => "b" case SignedDec => "sd")
    requires word != [] && forall i :: 0 <= i < |word| ==> IsWordChar(word[i])
    ensures var r := DecodeNumber(size + "'" + fmt + word);
      (r.Ok? <==> PyInt(word, Base(f)).Some?)
      && (r.Ok? ==> r.value == Literal(PyInt(word, Base(f)).value, Ty(false, DecimalValue(size), 0)))
  {
    SplitSized(size, fmt, f, word);
    NoDotIn(size + "'" + fmt + word);
  }

  /** A bare decimal is a 32-bit unsigned integer literal with its own value. */
  lemma BareDecimalLiteral(digits: string)
    requires digits != [] && AllDigits(digits)
    ensures DecodeNumber(digits) == Ok(Literal(DecimalValue(digits), Ty(false, 32, 0)))
  {
    SpanOfRun(digits, "", IsDigit);
    assert digits + "" == digits;
    assert digits[..|digits|] == digits;
    NoDotIn(digits);
  }

  lemma NoDotIn(tok: string)
    requires forall i :: 0 <= i < |tok| ==> tok[i] != '.'
    ensures !Contains(tok, ".")
  {
    forall k | 0 <= k < |tok|
      ensures !OccursAt(tok, ".", k)
    {
      assert tok[k..k + 1][0] == tok[k];
    }
  }

  /** The worked example: `8'sd200` is -56. */
  lemma SignedWrapExample()
    ensures DecodeNumber("8" + "'sd" + "200") == Ok(Literal(-56, Ty(true, 8, 0)))
  {
    SmallDecimals();
    SignedDecimalLiteral("8", "200");
    assert Pow2(7) == 128 && Pow2(8) == 256;
  }

  lemma SmallDecimals()
    ensures AllDigits("8") && DecimalValue("8") == 8
    ensures AllDigits("200") && DecimalValue("200") == 200
  {
  }

  /** An `sd` literal whose digits fit in n bits decodes to a value in the
      signed n-bit range that differs from the digits' value by 0 or 2^n. */
  lemma SignedLiteralInRange(size: string, word: string)
    requires size != [] && AllDigits(size) && DecimalValue(size) >= 1
    requires word != [] && AllDigits(word) && DecimalValue(word) < Pow2(DecimalValue(size))
    ensures var n := DecimalValue(size);
      var r := DecodeNumber(size + "'sd" + word);
      r.Ok? && -(Pow2(n - 1) as int) <= r.value.value < Pow2(n - 1)
      && (r.value.value == DecimalValue(word) || r.value.value == DecimalValue(word) - Pow2(n))
  {
    SignedDecode(size, word);
  }
}
