/** String helpers shared by the checker model: Python's whitespace set and
    strip family, prefix/substring search, decimal and hexadecimal numerals. */
module Text {

  /** Python's `str.isspace()`; `str.strip()` and the regex class `\s` use it. */
  predicate IsSpace(c: char) {
    var n := c as int;
    (9 <= n <= 13) || (28 <= n <= 32) || n == 0x85 || n == 0xA0 || n == 0x1680
    || (0x2000 <= n <= 0x200A) || n == 0x2028 || n == 0x2029 || n == 0x202F
    || n == 0x205F || n == 0x3000
  }

  predicate IsDigit(c: char) { '0' <= c <= '9' }

  predicate IsLetter(c: char) { ('a' <= c <= 'z') || ('A' <= c <= 'Z') }

  /** The regex class `\w`, restricted to ASCII. */
  predicate IsWordChar(c: char) { IsLetter(c) || IsDigit(c) || c == '_' }

  predicate AllDigits(s: string) { forall i :: 0 <= i < |s| ==> IsDigit(s[i]) }

  predicate StartsWith(s: string, p: string) { |p| <= |s| && s[..|p|] == p }

  /** Python's `str.lstrip()`. */
  function LStrip(s: string): (r: string)
    ensures |r| <= |s| && r == s[|s| - |r|..]
    ensures r == [] || !IsSpace(r[0])
    ensures forall i :: 0 <= i < |s| - |r| ==> IsSpace(s[i])
  {
    if s != [] && IsSpace(s[0]) then LStrip(s[1..]) else s
  }

  /** Python's `str.rstrip()`. */
  function RStrip(s: string): (r: string)
    ensures |r| <= |s| && r == s[..|r|]
    ensures r == [] || !IsSpace(r[|r| - 1])
    ensures forall i :: |r| <= i < |s| ==> IsSpace(s[i])
  {
    if s != [] && IsSpace(s[|s| - 1]) then RStrip(s[..|s| - 1]) else s
  }

  /** Python's `str.strip()`. */
  function Strip(s: string): (r: string)
    ensures r == [] || (!IsSpace(r[0]) && !IsSpace(r[|r| - 1]))
  {
    RStrip(LStrip(s))
  }

  /** Python's `str.rstrip(c)` for a single character `c`. */
  function RStripChar(s: string, c: char): (r: string)
    ensures |r| <= |s| && r == s[..|r|]
    ensures r == [] || r[|r| - 1] != c
    ensures forall i :: |r| <= i < |s| ==> s[i] == c
  {
    if s != [] && s[|s| - 1] == c then RStripChar(s[..|s| - 1], c) else s
  }

  /** The first index at or after `i` that does not hold a blank (`\s*`). */
  function NextNonBlank(s: string, i: nat): (k: nat)
    requires i <= |s|
    ensures i <= k <= |s| && (k == |s| || !IsSpace(s[k]))
    ensures forall m :: i <= m < k ==> IsSpace(s[m])
    decreases |s| - i
  {
    if i < |s| && IsSpace(s[i]) then NextNonBlank(s, i + 1) else i
  }

  /** `p` occurs in `s` starting at index `k`. */
  predicate OccursAt(s: string, p: string, k: int) {
    0 <= k && k + |p| <= |s| && s[k..k + |p|] == p
  }

  /** Index of the first occurrence of `p` in `s` at or after `from`. */
  function FindFrom(s: string, p: string, from: nat): (r: int)
    requires p != []
    decreases |s| - from
    ensures r == -1 || (from <= r && OccursAt(s, p, r))
    ensures forall k :: from <= k && (r == -1 || k < r) ==> !OccursAt(s, p, k)
  {
    if from + |p| > |s| then -1
    else if s[from..from + |p|] == p then from
    else FindFrom(s, p, from + 1)
  }

  /** Python's `s.find(p)`: the first index of `p` in `s`, or -1. */
  function Find(s: string, p: string): (r: int)
    requires p != []
    ensures r == -1 || OccursAt(s, p, r)
    ensures forall k :: 0 <= k && (r == -1 || k < r) ==> !OccursAt(s, p, k)
  {
    FindFrom(s, p, 0)
  }

  /** Python's `p in s`. */
  predicate Contains(s: string, p: string)
    requires p != []
  {
    Find(s, p) >= 0
  }

  /** Index of the last occurrence of the character `c` in `s`, or -1. */
  function LastIndexOf(s: string, c: char): (r: int)
    ensures -1 <= r < |s|
    ensures r >= 0 ==> s[r] == c
    ensures forall k :: r < k < |s| ==> s[k] != c
  {
    if s == [] then -1
    else if s[|s| - 1] == c then |s| - 1
    else LastIndexOf(s[..|s| - 1], c)
  }

  /** Length of the longest prefix of `s` made of characters satisfying `P`. */
  function Span(s: string, P: char -> bool): (n: nat)
    ensures n <= |s|
    ensures forall i :: 0 <= i < n ==> P(s[i])
    ensures n == |s| || !P(s[n])
  {
    if s != [] && P(s[0]) then 1 + Span(s[1..], P) else 0
  }

  /** A run of `P`-characters followed by a character that is not one spans exactly the run. */
  lemma {:induction false} SpanOfRun(a: string, b: string, P: char -> bool)
    requires forall i :: 0 <= i < |a| ==> P(a[i])
    requires b == [] || !P(b[0])
    ensures Span(a + b, P) == |a|
    decreases |a|
  {
    if a != [] {
      assert (a + b)[1..] == a[1..] + b;
      SpanOfRun(a[1..], b, P);
    }
  }

  function DigitValue(c: char): nat
    requires IsDigit(c)
  {
    (c as int) - ('0' as int)
  }

  /** Value of a string of decimal digits, Python's `int(s, 10)` on such a string. */
  function DecimalValue(s: string): nat
    requires AllDigits(s)
  {
    if s == [] then 0 else 10 * DecimalValue(s[..|s| - 1]) + DigitValue(s[|s| - 1])
  }

  /** Decimal numeral of `n`, as Python's `str(n)` prints it. */
  function NatToString(n: nat): (s: string)
    ensures s != [] && AllDigits(s)
    ensures s[0] != '0' || s == "0"
    decreases n
  {
    if n < 10 then ['0' + (n as char)]
    else NatToString(n / 10) + ['0' + ((n % 10) as char)]
  }

  /** Python's `str(i)` for any integer. */
  function IntToString(i: int): string {
    if i < 0 then "-" + NatToString(-i) else NatToString(i)
  }

  /** A decimal numeral Python prints: digits, no leading zero except "0" itself. */
  predicate CanonicalDecimal(s: string) {
    s != [] && AllDigits(s) && (s[0] != '0' || s == "0")
  }

  lemma {:induction false} NatToStringValue(n: nat)
    ensures DecimalValue(NatToString(n)) == n
    decreases n
  {
    if n >= 10 {
      NatToStringValue(n / 10);
      var s := NatToString(n);
      assert s[..|s| - 1] == NatToString(n / 10);
    }
  }

  lemma {:induction false} LeadingDigitPositive(s: string)
    requires AllDigits(s) && s != [] && s[0] != '0'
    ensures DecimalValue(s) >= 1
    ensures |s| >= 2 ==> DecimalValue(s) >= 10
    decreases |s|
  {
    if |s| >= 2 {
      LeadingDigitPositive(s[..|s| - 1]);
    }
  }

  /** Printing the value of a canonical numeral gives the numeral back. */
  lemma {:induction false} DecimalRoundTrip(s: string)
    requires CanonicalDecimal(s)
    ensures NatToString(DecimalValue(s)) == s
    decreases |s|
  {
    var n := DecimalValue(s);
    if |s| == 1 {
      assert s == [s[0]];
    } else {
      var init := s[..|s| - 1];
      LeadingDigitPositive(s);
      LeadingDigitPositive(init);
      assert init[0] == s[0];
      DecimalRoundTrip(init);
      assert n / 10 == DecimalValue(init) && n % 10 == DigitValue(s[|s| - 1]);
      assert s == init + [s[|s| - 1]];
    }
  }

  /** Two canonical numerals with the same value are the same string. */
  lemma CanonicalDecimalInjective(a: string, b: string)
    requires CanonicalDecimal(a) && CanonicalDecimal(b)
    requires DecimalValue(a) == DecimalValue(b)
    ensures a == b
  {
    DecimalRoundTrip(a);
    DecimalRoundTrip(b);
  }

  /** Python's `sep.join(parts)`. */
  function Join(sep: string, parts: seq<string>): string {
    if parts == [] then ""
    else if |parts| == 1 then parts[0]
    else parts[0] + sep + Join(sep, parts[1..])
  }

  /** A run of digits followed by `sep`: its length and its value. */
  lemma DigitsThen(d: string, sep: char, rest: string)
    requires d != [] && AllDigits(d) && !IsDigit(sep)
    ensures var t := d + ([sep] + rest);
      Span(t, IsDigit) == |d| && t[..|d|] == d && t[|d|] == sep && t[|d| + 1..] == rest
  {
    SpanOfRun(d, [sep] + rest, IsDigit);
  }

  predicate WordName(name: string) {
    name != [] && forall i :: 0 <= i < |name| ==> IsWordChar(name[i])
  }

  /** A name followed by a character that cannot continue it. */
  lemma WordThen(name: string, rest: string)
    requires WordName(name) && (rest == [] || !IsWordChar(rest[0]))
    ensures var t := name + rest; Span(t, IsWordChar) == |name| && t[..|name|] == name && t[|name|..] == rest
  {
    SpanOfRun(name, rest, IsWordChar);
  }

  /** A string that neither starts nor ends with a blank is its own strip. */
  lemma StripUnchanged(s: string)
    requires s != [] && !IsSpace(s[0]) && !IsSpace(s[|s| - 1])
    ensures Strip(s) == s
  {
    assert LStrip(s) == s;
  }

  /** A non-empty string with no blank at either end. */
  predicate Stripped(s: string) {
    s != [] && !IsSpace(s[0]) && !IsSpace(s[|s| - 1])
  }

  /** A blank followed by a stripped string strips to that string. */
  lemma StripAfterBlank(s: string)
    requires Stripped(s)
    ensures Strip([' '] + s) == s && LStrip([' '] + s) == s
  {
    assert ([' '] + s)[1..] == s;
    assert LStrip(s) == s;
  }
  /** The last occurrence of `c` is the one with no `c` after it. */
  lemma {:induction false} LastIndexOfIs(s: string, c: char, r: nat)
    requires r < |s| && s[r] == c
    requires forall k :: r < k < |s| ==> s[k] != c
    ensures LastIndexOf(s, c) == r
    decreases |s|
  {
    if s[|s| - 1] != c {
      LastIndexOfIs(s[..|s| - 1], c, r);
    }
  }
  /** Left-stripping drops exactly the leading run of blanks. */
  lemma {:induction false} LStripSpan(s: string)
    ensures LStrip(s) == s[Span(s, IsSpace)..]
  {
    if s != [] && IsSpace(s[0]) {
      LStripSpan(s[1..]);
      assert s[1..][Span(s[1..], IsSpace)..] == s[1 + Span(s[1..], IsSpace)..];
    }
  }
  /** The first occurrence is the one with none before it. */
  lemma FindIs(s: string, p: string, k: nat)
    requires p != [] && OccursAt(s, p, k)
    requires forall j :: 0 <= j < k ==> !OccursAt(s, p, j)
    ensures Find(s, p) == k
  {
  }

  /** A stripped text followed by a blank strips to itself. */
  lemma StripBeforeBlank(e: string)
    requires Stripped(e)
    ensures Strip(e + [' ']) == e
  {
    assert LStrip(e + [' ']) == e + [' '];
    assert (e + [' '])[..|e|] == e;
  }
  /** A two-character pattern whose characters never appear next to each
      other is not found. */
  lemma PairNotFound(s: string, a: char, b: char)
    requires forall k :: 0 <= k && k + 2 <= |s| ==> s[k] != a || s[k + 1] != b
    ensures Find(s, [a, b]) == -1
  {
    forall k | 0 <= k ensures !OccursAt(s, [a, b], k) {
      if k + 2 <= |s| {
        assert s[k..k + 2][0] == s[k] && s[k..k + 2][1] == s[k + 1];
      }
    }
  }
  /** The first occurrence from `from` on is the one with none between. */
  lemma FindFromIs(s: string, p: string, from: nat, k: nat)
    requires p != [] && from <= k && OccursAt(s, p, k)
    requires forall j :: from <= j < k ==> !OccursAt(s, p, j)
    ensures FindFrom(s, p, from) == k
  {
  }
}
