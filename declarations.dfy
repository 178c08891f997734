/** Declaration scanning: `reg` and `localparam` lines give the types of
    the names the annotations use. */
module Declarations {
  import opened Text
  import opened Errors
  import opened FixedPoint

  /** A parsed declaration: the name, the type it gets, and the bracket bounds. */
  datatype Decl = Decl(name: string, ty: Ty, msb: nat, lsb: nat)

  /** The common head `<keyword> (signed)? [msb:lsb] <name>`, with at least one
      blank after the keyword, after `signed` and before the name: whether
      `signed` was given, the bounds, the name and the text after it. */
  datatype Head = Head(signedKeyword: bool, msb: nat, lsb: nat, name: string, rest: string)

  /** `t` without its leading blanks. */
  function SkipBlanks(t: string): (r: string)
    ensures |r| <= |t| && r == t[|t| - |r|..]
    ensures r == [] || !IsSpace(r[0])
  {
    t[Span(t, IsSpace)..]
  }

  /** `[<digits>:<digits>]` at the start of `t`: the two bounds and the text after it. */
  function ParseBounds(t: string): (r: Option<(nat, nat, string)>)
    ensures r.Some? ==> |r.value.2| < |t|
  {
    if t == [] || t[0] != '[' then None
    else
      var u := t[1..];
      var d1 := Span(u, IsDigit);
      if d1 == 0 || d1 >= |u| || u[d1] != ':' then None
      else
        var v := u[d1 + 1..];
        var d2 := Span(v, IsDigit);
        if d2 == 0 || d2 >= |v| || v[d2] != ']' then None
        else Some((DecimalValue(u[..d1]), DecimalValue(v[..d2]), v[d2 + 1..]))
  }

  /** After the keyword's blanks: whether `signed` and at least one blank
      come next, and the text after them. */
  function SignedPart(u: string): (r: (bool, string))
    ensures |r.1| <= |u|
  {
    if StartsWith(u, "signed") && Span(u[6..], IsSpace) >= 1 then (true, SkipBlanks(u[6..])) else (false, u)
  }

  /** At least one blank and then a name: the name and the text after it. */
  function NamePart(v: string): (r: Option<(string, string)>)
    ensures r.Some? ==> r.value.0 != [] && |r.value.1| < |v|
  {
    var w := Span(v, IsSpace);
    var n := Span(v[w..], IsWordChar);
    if w == 0 || n == 0 then None else Some((v[w..][..n], v[w..][n..]))
  }

  function ParseHead(s: string, keyword: string): (r: Option<Head>)
    ensures r.Some? ==> r.value.name != [] && |r.value.rest| < |s|
  {
    if !StartsWith(s, keyword) then None
    else
      var t := s[|keyword|..];
      var w := Span(t, IsSpace);
      if w == 0 then None
      else
        var (signedKeyword, b) := SignedPart(t[w..]);
        match ParseBounds(b)
        case None => None
        case Some((msb, lsb, v)) =>
          match NamePart(v)
          case None => None
          case Some((name, rest)) => Some(Head(signedKeyword, msb, lsb, name, rest))
  }

  /** `t[k..]` is blanks and then a `;`. */
  predicate SemicolonAfterBlanks(t: string, k: nat) {
    k <= |t| && var a := SkipBlanks(t[k..]); a != [] && a[0] == ';'
  }

  /** `t[e]` can end the bracketed array part: it is a `]` with blanks and a `;` after it. */
  predicate ArrayEndAt(t: string, e: nat)
    requires e < |t|
  {
    t[e] == ']' && SemicolonAfterBlanks(t, e + 1)
  }

  /** The largest `e` in [lo, hi) where the array part can end: where a greedy
      bracketed array part ends when the `;` must still follow. */
  function LastArrayEnd(t: string, lo: nat, hi: nat): (r: Option<nat>)
    requires hi <= |t|
    ensures r.Some? ==> lo <= r.value < hi && ArrayEndAt(t, r.value)
    ensures r.None? ==> forall e :: lo <= e < hi ==> !ArrayEndAt(t, e)
    decreases hi
  {
    if hi <= lo then None
    else if ArrayEndAt(t, hi - 1) then Some(hi - 1)
    else LastArrayEnd(t, lo, hi - 1)
  }

  /** The optional trailing comment in the text `t` after the `;`: blanks, two
      slashes, and then the rest of the line. */
  function TrailingComment(t: string): (c: Option<string>)
    ensures c.Some? ==> |c.value| <= |t|
  {
    var a := SkipBlanks(t);
    if StartsWith(a, "//") then Some(a[2..]) else None
  }

  /** Where the first type token `[SU]<digits>F<digits>` of `c` starts, searching from `from`. */
  function FindTypeToken(c: string, from: nat): (r: Option<nat>)
    ensures r.Some? ==> from <= r.value < |c| && TypeTokenAt(c, r.value)
    ensures forall k :: from <= k < |c| && (r.None? || k < r.value) ==> !TypeTokenAt(c, k)
    decreases |c| - from
  {
    if from >= |c| then None
    else if TypeTokenAt(c, from) then Some(from)
    else FindTypeToken(c, from + 1)
  }

  /** A type token starts at `c[k]`. */
  predicate TypeTokenAt(c: string, k: nat)
    requires k <= |c|
  {
    TypeTokenLen(c[k..]) > 0
  }

  /** The type a declaration gets: the width always comes from the bracket
      bounds; sign and frac from the first type token of a non-empty comment,
      otherwise from the `signed` keyword with frac 0. The token's own width
      and the signed-with-no-integer-bit rule are not checked here. */
  function DeclType(signedKeyword: bool, msb: nat, lsb: nat, comment: Option<string>): (t: Ty)
    ensures t.total == msb - lsb + 1
    ensures (comment.None? || FindTypeToken(comment.value, 0).None?) ==> t == Ty(signedKeyword, msb - lsb + 1, 0)
    ensures comment.Some? && FindTypeToken(comment.value, 0).Some? ==>
              var tok := comment.value[FindTypeToken(comment.value, 0).value..];
              t == Ty(tok[0] == 'S', msb - lsb + 1, TokenFrac(tok))
  {
    var total := msb - lsb + 1;
    if comment.Some? && FindTypeToken(comment.value, 0).Some? then
      var tok := comment.value[FindTypeToken(comment.value, 0).value..];
      Ty(tok[0] == 'S', total, TokenFrac(tok))
    else Ty(signedKeyword, total, 0)
  }

  /** The declaration a parsed head gives, with `tail` the text after its `;`. */
  function HeadDecl(h: Head, tail: string): (d: Decl)
    ensures d.ty.total == d.msb - d.lsb + 1
    ensures d.name == h.name && d.msb == h.msb && d.lsb == h.lsb
    ensures d.ty == DeclType(h.signedKeyword, h.msb, h.lsb, TrailingComment(tail))
  {
    Decl(h.name, DeclType(h.signedKeyword, h.msb, h.lsb, TrailingComment(tail)), h.msb, h.lsb)
  }

  /** After a register's name: an optional bracketed array part, blanks and a
      `;`; the text after that `;`. The array part ends at the last `]` that
      still has the `;` after it. */
  function RegTail(q: string): (r: Option<string>)
    requires q == [] || !IsSpace(q[0])
  {
    if q != [] && q[0] == '[' then
      match LastArrayEnd(q, 1, |q|)
      case Some(e) => Some(SkipBlanks(q[e + 1..])[1..])
      case None => None
    else if q != [] && q[0] == ';' then Some(q[1..])
    else None
  }

  /** After a localparam's name: `=`, a value of at least one character that
      ends at the first `;` it can, and the text after that `;`. */
  function LocalparamTail(q: string): (r: Option<string>)
    requires q == [] || !IsSpace(q[0])
  {
    if q == [] || q[0] != '=' then None
    else
      var u := SkipBlanks(q[1..]);
      var semi := FindFrom(u, ";", 1);
      if semi >= 0 then Some(u[semi + 1..])
      // A `;` right at the value's start still ends a value made of one blank.
      else if u != [] && u[0] == ';' && |u| < |q| - 1 then Some(u[1..])
      else None
  }

  /** A register declaration at the start of the stripped line `s`. */
  function RegDecl(s: string): (r: Option<Decl>)
    ensures r.Some? ==> r.value.ty.total == r.value.msb - r.value.lsb + 1 && r.value.name != []
  {
    var h := ParseHead(s, "reg");
    if h.None? then None
    else
      var tail := RegTail(SkipBlanks(h.value.rest));
      if tail.None? then None else Some(HeadDecl(h.value, tail.value))
  }

  /** A localparam declaration at the start of the stripped line `s`. */
  function LocalparamDecl(s: string): (r: Option<Decl>)
    ensures r.Some? ==> r.value.ty.total == r.value.msb - r.value.lsb + 1 && r.value.name != []
  {
    var h := ParseHead(s, "localparam");
    if h.None? then None
    else
      var tail := LocalparamTail(SkipBlanks(h.value.rest));
      if tail.None? then None else Some(HeadDecl(h.value, tail.value))
  }

  /** `parse_reg_declaration`: the line is stripped first. */
  function ParseReg(line: string): (r: Option<Decl>)
    ensures r.Some? ==> r.value.ty.total == r.value.msb - r.value.lsb + 1 && r.value.name != []
  {
    RegDecl(Strip(line))
  }

  /** `parse_localparam_declaration`: the line is stripped first. */
  function ParseLocalparam(line: string): (r: Option<Decl>)
    ensures r.Some? ==> r.value.ty.total == r.value.msb - r.value.lsb + 1 && r.value.name != []
  {
    LocalparamDecl(Strip(line))
  }

  // ---------------------------------------------------------------------
  // The type database

  /** Known types of names, and the names declared as registers. */
  datatype Db = Db(types: map<string, Ty>, registers: set<string>)

  /** Every register has a type. */
  predicate Valid(db: Db) { db.registers <= db.types.Keys }

  /** The database before any declaration is read: one built-in constant. */
  function InitialDb(): (db: Db)
    ensures Valid(db) && "PITCH_REF_C2" in db.types && db.registers == {}
  {
    Db(map["PITCH_REF_C2" := Ty(false, 7, 0)], {})
  }

  predicate EndsWith(s: string, suffix: string) {
    |suffix| <= |s| && s[|s| - |suffix|..] == suffix
  }

  /** `x` is a name a register declaration of `name` registers: the name
      itself, or the name without an `_8x` suffix. */
  predicate Registers(name: string, x: string) {
    name == x || (EndsWith(name, "_8x") && name[..|name| - 3] == x)
  }

  /** The names a register declaration of `name` registers. */
  function RegisteredNames(name: string): (r: set<string>)
    ensures forall x :: x in r <==> Registers(name, x)
  {
    if EndsWith(name, "_8x") then {name, name[..|name| - 3]} else {name}
  }

  /** Records a register: its name, and its name without an `_8x` suffix,
      become registers of its type. */
  function AddRegister(db: Db, d: Decl): (r: Db)
    ensures Valid(db) ==> Valid(r)
    ensures d.name in r.registers && d.name in r.types && r.types[d.name] == d.ty
    ensures EndsWith(d.name, "_8x") ==>
              var base := d.name[..|d.name| - 3];
              base in r.registers && base in r.types && r.types[base] == d.ty
    ensures r.registers == db.registers + RegisteredNames(d.name)
    ensures r.types.Keys == db.types.Keys + RegisteredNames(d.name)
  {
    var types := db.types[d.name := d.ty];
    var regs := db.registers + {d.name};
    if EndsWith(d.name, "_8x") then
      var base := d.name[..|d.name| - 3];
      assert base != d.name by { assert |base| < |d.name|; }
      Db(types[base := d.ty], regs + {base})
    else Db(types, regs)
  }

  /** Records a localparam: its name gets its type; it does not become a register. */
  function AddLocalparam(db: Db, d: Decl): (r: Db)
    ensures Valid(db) ==> Valid(r)
    ensures r.registers == db.registers && r.types.Keys == db.types.Keys + {d.name}
    ensures r.types[d.name] == d.ty && forall x :: x in db.types && x != d.name ==> r.types[x] == db.types[x]
  {
    Db(db.types[d.name := d.ty], db.registers)
  }

  /** One line of `build_type_database`: a register declaration, else a
      localparam declaration, which only gets a type (the second localparam
      branch, which would also register it, is never reached), else nothing. */
  function DeclStep(db: Db, line: string): (r: Db)
    ensures Valid(db) ==> Valid(r)
    ensures ParseReg(line).Some? ==> r == AddRegister(db, ParseReg(line).value)
    ensures ParseReg(line).None? && ParseLocalparam(line).Some? ==> r == AddLocalparam(db, ParseLocalparam(line).value)
    ensures ParseReg(line).None? && ParseLocalparam(line).None? ==> r == db
  {
    ApplyDecl(db, ParseReg(line), ParseLocalparam(line))
  }

  /** The update a line makes, given what the register and the localparam
      parsers make of it: the register parser is tried first. */
  function ApplyDecl(db: Db, reg: Option<Decl>, lp: Option<Decl>): (r: Db)
    ensures r.registers == db.registers + (if reg.Some? then RegisteredNames(reg.value.name) else {})
  {
    if reg.Some? then AddRegister(db, reg.value)
    else if lp.Some? then AddLocalparam(db, lp.value)
    else db
  }

  /** The database after reading `lines` in order. */
  function BuildDb(db: Db, lines: seq<string>): (r: Db)
    decreases |lines|
  {
    if lines == [] then db else DeclStep(BuildDb(db, lines[..|lines| - 1]), lines[|lines| - 1])
  }

  /** Reading one more line applies one more step. */
  lemma BuildDbStep(db: Db, lines: seq<string>, k: nat)
    requires k < |lines|
    ensures BuildDb(db, lines[..k + 1]) == DeclStep(BuildDb(db, lines[..k]), lines[k])
  {
    assert lines[..k + 1][..k] == lines[..k];
  }

  /** Reading declarations never leaves a register without a type. */
  lemma {:induction false} BuildDbValid(db: Db, lines: seq<string>)
    requires Valid(db)
    ensures Valid(BuildDb(db, lines))
    decreases |lines|
  {
    if lines != [] {
      BuildDbValid(db, lines[..|lines| - 1]);
    }
  }

  /** The names the register declaration on `line` registers, if it holds one. */
  function LineRegisters(line: string): set<string> {
    if ParseReg(line).Some? then RegisteredNames(ParseReg(line).value.name) else {}
  }

  /** The names the register declarations among `lines` register. */
  function RegistersNamed(lines: seq<string>): set<string>
    decreases |lines|
  {
    if lines == [] then {} else RegistersNamed(lines[..|lines| - 1]) + LineRegisters(lines[|lines| - 1])
  }

  /** Registers only ever come from `reg` lines: after a scan the registers
      are exactly those known before and those the register declarations read
      name. */
  lemma {:induction false} RegistersFromRegLines(db: Db, lines: seq<string>)
    ensures BuildDb(db, lines).registers == db.registers + RegistersNamed(lines)
    decreases |lines|
  {
    if lines != [] {
      var init := lines[..|lines| - 1];
      var last := lines[|lines| - 1];
      RegistersFromRegLines(db, init);
      StepRegisters(BuildDb(db, init), lines[|lines| - 1]);
    }
  }

  /** One step adds exactly the names its line registers. */
  lemma StepRegisters(db: Db, line: string)
    ensures DeclStep(db, line).registers == db.registers + LineRegisters(line)
  {
    assert DeclStep(db, line) == ApplyDecl(db, ParseReg(line), ParseLocalparam(line));
  }

  // ---------------------------------------------------------------------
  // What the parsers make of well-formed declarations

  lemma SkipNoBlank(t: string)
    requires t == [] || !IsSpace(t[0])
    ensures SkipBlanks(t) == t
  {
  }

  lemma SkipOneBlank(t: string)
    requires t != [] && IsSpace(t[0]) && (|t| == 1 || !IsSpace(t[1]))
    ensures Span(t, IsSpace) == 1 && SkipBlanks(t) == t[1..]
  {
    assert Span(t[1..], IsSpace) == 0;
  }

  /** The bracket bounds `[msb:lsb]` as written, followed by `rest`. */
  function BoundsLine(msb: string, lsb: string, rest: string): string {
    "[" + (msb + (":" + (lsb + ("]" + rest))))
  }

  lemma ParseBoundsOf(msb: string, lsb: string, rest: string)
    requires msb != [] && AllDigits(msb) && lsb != [] && AllDigits(lsb)
    ensures ParseBounds(BoundsLine(msb, lsb, rest)) == Some((DecimalValue(msb), DecimalValue(lsb), rest))
  {
    var v := lsb + ("]" + rest);
    assert BoundsLine(msb, lsb, rest)[1..] == msb + (":" + v);
    DigitsThen(msb, ':', v);
    DigitsThen(lsb, ']', rest);
  }

  /** One blank followed by a non-blank. */
  lemma BlankThen(x: string)
    requires x == [] || !IsSpace(x[0])
    ensures Span([' '] + x, IsSpace) == 1 && ([' '] + x)[1..] == x && SkipBlanks([' '] + x) == x
  {
    assert ([' '] + x)[1..] == x;
    assert Span(x, IsSpace) == 0;
  }

  /** The text from the optional `signed` on: the keyword is recognised exactly when present. */
  lemma SignedPartOf(signedKeyword: bool, b: string)
    requires b != [] && b[0] == '['
    ensures SignedPart((if signedKeyword then "signed " else "") + b) == (signedKeyword, b)
  {
    if signedKeyword {
      var u := "signed " + b;
      assert u[..6] == "signed";
      assert u[6..] == [' '] + b;
      BlankThen(b);
    } else {
      assert "" + b == b;
      assert !StartsWith(b, "signed") by {
        if |b| >= 6 {
          assert b[..6][0] == '[';
        }
      }
    }
  }

  lemma NamePartOf(name: string, rest: string)
    requires WordName(name) && (rest == [] || !IsWordChar(rest[0]))
    ensures NamePart([' '] + (name + rest)) == Some((name, rest))
  {
    BlankThen(name + rest);
    WordThen(name, rest);
  }

  /** A declaration head as written, followed by `rest`. */
  function HeadLine(keyword: string, signedKeyword: bool, msb: string, lsb: string, name: string, rest: string): string {
    keyword + ([' '] + ((if signedKeyword then "signed " else "") + BoundsLine(msb, lsb, [' '] + (name + rest))))
  }

  lemma ParseHeadOf(keyword: string, signedKeyword: bool, msb: string, lsb: string, name: string, rest: string)
    requires msb != [] && AllDigits(msb) && lsb != [] && AllDigits(lsb) && WordName(name)
    requires rest == [] || !IsWordChar(rest[0])
    ensures ParseHead(HeadLine(keyword, signedKeyword, msb, lsb, name, rest), keyword)
      == Some(Head(signedKeyword, DecimalValue(msb), DecimalValue(lsb), name, rest))
  {
    var v := [' '] + (name + rest);
    var b := BoundsLine(msb, lsb, v);
    var u := (if signedKeyword then "signed " else "") + b;
    var s := HeadLine(keyword, signedKeyword, msb, lsb, name, rest);
    assert s[..|keyword|] == keyword && s[|keyword|..] == [' '] + u;
    assert u[0] == 's' || u[0] == '[';
    BlankThen(u);
    SignedPartOf(signedKeyword, b);
    ParseBoundsOf(msb, lsb, v);
    NamePartOf(name, rest);
  }

  /** The optional trailing comment as written after the `;`. */
  function CommentText(comment: Option<string>): string {
    if comment.Some? then " //" + comment.value else ""
  }

  /** A register declaration line, with an optional trailing comment. */
  function RegLine(signedKeyword: bool, msb: string, lsb: string, name: string, comment: Option<string>): string {
    HeadLine("reg", signedKeyword, msb, lsb, name, ";" + CommentText(comment))
  }

  /** Stripping a declaration line that ends in a `;` or a non-blank comment leaves it unchanged. */
  lemma StripLine(keyword: string, signedKeyword: bool, msb: string, lsb: string, name: string, rest: string)
    requires keyword != [] && !IsSpace(keyword[0]) && rest != [] && !IsSpace(rest[|rest| - 1])
    ensures var s := HeadLine(keyword, signedKeyword, msb, lsb, name, rest); Strip(s) == s
  {
    var s := HeadLine(keyword, signedKeyword, msb, lsb, name, rest);
    var sig := if signedKeyword then "signed " else "";
    var bounds := "[" + (msb + (":" + (lsb + "] ")));
    var front := keyword + ([' '] + (sig + (bounds + name)));
    assert s == front + rest;
    assert s[|s| - 1] == rest[|rest| - 1];
    StripUnchanged(s);
  }

  /** The comment text is read back from what follows the `;`. */
  lemma TrailingCommentOf(comment: Option<string>)
    ensures TrailingComment(CommentText(comment)) == comment
  {
    if comment.Some? {
      var t := CommentText(comment);
      assert t == [' '] + ("//" + comment.value);
      BlankThen("//" + comment.value);
      assert ("//" + comment.value)[2..] == comment.value;
    }
  }

  /** The text from the `;` on ends in a non-blank. */
  lemma CommentLineEnd(comment: Option<string>)
    requires comment.Some? && comment.value != [] ==> !IsSpace(comment.value[|comment.value| - 1])
    ensures var rest := ";" + CommentText(comment); !IsSpace(rest[|rest| - 1])
  {
    if comment.Some? && comment.value != [] {
      var rest := ";" + CommentText(comment);
      assert rest[|rest| - 1] == comment.value[|comment.value| - 1];
    }
  }

  /** A well-formed register declaration is read back as its name, its
      bracket bounds and the type its comment (or its `signed` keyword) gives. */
  lemma ParseRegLine(signedKeyword: bool, msb: string, lsb: string, name: string, comment: Option<string>)
    requires msb != [] && AllDigits(msb) && lsb != [] && AllDigits(lsb) && WordName(name)
    requires comment.Some? && comment.value != [] ==> !IsSpace(comment.value[|comment.value| - 1])
    ensures ParseReg(RegLine(signedKeyword, msb, lsb, name, comment))
      == Some(Decl(name, DeclType(signedKeyword, DecimalValue(msb), DecimalValue(lsb), comment),
                   DecimalValue(msb), DecimalValue(lsb)))
  {
    RegLineStrip(signedKeyword, msb, lsb, name, comment);
    RegDeclLine(signedKeyword, msb, lsb, name, comment);
  }

  lemma RegDeclLine(signedKeyword: bool, msb: string, lsb: string, name: string, comment: Option<string>)
    requires msb != [] && AllDigits(msb) && lsb != [] && AllDigits(lsb) && WordName(name)
    ensures RegDecl(RegLine(signedKeyword, msb, lsb, name, comment))
      == Some(Decl(name, DeclType(signedKeyword, DecimalValue(msb), DecimalValue(lsb), comment),
                   DecimalValue(msb), DecimalValue(lsb)))
  {
    var h := Head(signedKeyword, DecimalValue(msb), DecimalValue(lsb), name, ";" + CommentText(comment));
    RegLineHead(signedKeyword, msb, lsb, name, comment);
    RegLineTail(h, comment);
    RegDeclOf(RegLine(signedKeyword, msb, lsb, name, comment), h, CommentText(comment));
  }

  /** `RegDecl` puts together the head and the tail it finds. */
  lemma RegDeclOf(s: string, h: Head, tail: string)
    requires ParseHead(s, "reg") == Some(h) && RegTail(SkipBlanks(h.rest)) == Some(tail)
    ensures RegDecl(s) == Some(HeadDecl(h, tail))
  {
  }

  lemma RegLineStrip(signedKeyword: bool, msb: string, lsb: string, name: string, comment: Option<string>)
    requires comment.Some? && comment.value != [] ==> !IsSpace(comment.value[|comment.value| - 1])
    ensures Strip(RegLine(signedKeyword, msb, lsb, name, comment)) == RegLine(signedKeyword, msb, lsb, name, comment)
  {
    CommentLineEnd(comment);
    StripLine("reg", signedKeyword, msb, lsb, name, ";" + CommentText(comment));
  }

  lemma RegLineHead(signedKeyword: bool, msb: string, lsb: string, name: string, comment: Option<string>)
    requires msb != [] && AllDigits(msb) && lsb != [] && AllDigits(lsb) && WordName(name)
    ensures ParseHead(RegLine(signedKeyword, msb, lsb, name, comment), "reg")
      == Some(Head(signedKeyword, DecimalValue(msb), DecimalValue(lsb), name, ";" + CommentText(comment)))
  {
    ParseHeadOf("reg", signedKeyword, msb, lsb, name, ";" + CommentText(comment));
  }

  lemma RegLineTail(h: Head, comment: Option<string>)
    requires h.rest == ";" + CommentText(comment)
    ensures HeadDecl(h, CommentText(comment)).ty == DeclType(h.signedKeyword, h.msb, h.lsb, comment)
    ensures RegTail(SkipBlanks(h.rest)) == Some(CommentText(comment))
  {
    SkipNoBlank(h.rest);
    RegTailOf(CommentText(comment));
    TrailingCommentOf(comment);
  }


  lemma RegTailOf(tail: string)
    ensures RegTail(";" + tail) == Some(tail)
  {
    var q := ";" + tail;
    assert q[0] == ';';
    assert q[1..] == tail;
  }

  /** A localparam declaration line: `= value;` and an optional trailing comment. */
  function LocalparamLine(signedKeyword: bool, msb: string, lsb: string, name: string, value: string, comment: Option<string>): string {
    HeadLine("localparam", signedKeyword, msb, lsb, name, ValueText(value, comment))
  }

  /** ` = value;` and the optional comment, as written after a localparam's name. */
  function ValueText(value: string, comment: Option<string>): string {
    [' '] + ("=" + ([' '] + (value + (";" + CommentText(comment)))))
  }

  /** A value a localparam can be written with: non-empty, starting with a
      non-blank and free of `;`. */
  predicate PlainValue(value: string) {
    value != [] && !IsSpace(value[0]) && forall i :: 0 <= i < |value| ==> value[i] != ';'
  }

  /** The first `;` after a plain value is the one that ends it. */
  lemma FirstSemicolon(value: string, tail: string)
    requires PlainValue(value)
    ensures FindFrom(value + (";" + tail), ";", 1) == |value|
  {
    var u := value + (";" + tail);
    assert u[|value|..|value| + 1] == ";";
    forall k | 1 <= k < |value|
      ensures !OccursAt(u, ";", k)
    {
      assert u[k..k + 1][0] == value[k];
    }
    assert OccursAt(u, ";", |value|);
  }

  lemma LocalparamTailOf(value: string, comment: Option<string>)
    requires PlainValue(value)
    ensures var rest := ValueText(value, comment);
      SkipBlanks(rest) == rest[1..] && LocalparamTail(rest[1..]) == Some(CommentText(comment))
  {
    var tail := CommentText(comment);
    var u := value + (";" + tail);
    var q := "=" + ([' '] + u);
    var rest := ValueText(value, comment);
    assert rest == [' '] + q;
    BlankThen(q);
    assert q[1..] == [' '] + u;
    BlankThen(u);
    FirstSemicolon(value, tail);
    assert u[|value| + 1..] == tail;
  }

  lemma LocalparamLineStrip(signedKeyword: bool, msb: string, lsb: string, name: string, value: string, comment: Option<string>)
    requires comment.Some? && comment.value != [] ==> !IsSpace(comment.value[|comment.value| - 1])
    ensures var line := LocalparamLine(signedKeyword, msb, lsb, name, value, comment); Strip(line) == line
  {
    CommentLineEnd(comment);
    var end := ";" + CommentText(comment);
    var rest := ValueText(value, comment);
    assert rest == ([' '] + ("=" + ([' '] + value))) + end;
    assert rest[|rest| - 1] == end[|end| - 1];
    StripLine("localparam", signedKeyword, msb, lsb, name, rest);
  }

  lemma LocalparamDeclLine(signedKeyword: bool, msb: string, lsb: string, name: string, value: string, comment: Option<string>)
    requires msb != [] && AllDigits(msb) && lsb != [] && AllDigits(lsb) && WordName(name) && PlainValue(value)
    ensures LocalparamDecl(LocalparamLine(signedKeyword, msb, lsb, name, value, comment))
      == Some(Decl(name, DeclType(signedKeyword, DecimalValue(msb), DecimalValue(lsb), comment),
                   DecimalValue(msb), DecimalValue(lsb)))
  {
    var h := Head(signedKeyword, DecimalValue(msb), DecimalValue(lsb), name, ValueText(value, comment));
    LocalparamLineHead(signedKeyword, msb, lsb, name, value, comment);
    LocalparamLineTail(h, value, comment);
    LocalparamDeclOf(LocalparamLine(signedKeyword, msb, lsb, name, value, comment), h, CommentText(comment));
  }

  /** `LocalparamDecl` puts together the head and the tail it finds. */
  lemma LocalparamDeclOf(s: string, h: Head, tail: string)
    requires ParseHead(s, "localparam") == Some(h) && LocalparamTail(SkipBlanks(h.rest)) == Some(tail)
    ensures LocalparamDecl(s) == Some(HeadDecl(h, tail))
  {
  }

  lemma LocalparamLineHead(signedKeyword: bool, msb: string, lsb: string, name: string, value: string, comment: Option<string>)
    requires msb != [] && AllDigits(msb) && lsb != [] && AllDigits(lsb) && WordName(name)
    ensures ParseHead(LocalparamLine(signedKeyword, msb, lsb, name, value, comment), "localparam")
      == Some(Head(signedKeyword, DecimalValue(msb), DecimalValue(lsb), name, ValueText(value, comment)))
  {
    ParseHeadOf("localparam", signedKeyword, msb, lsb, name, ValueText(value, comment));
  }

  lemma LocalparamLineTail(h: Head, value: string, comment: Option<string>)
    requires PlainValue(value) && h.rest == ValueText(value, comment)
    ensures HeadDecl(h, CommentText(comment)).ty == DeclType(h.signedKeyword, h.msb, h.lsb, comment)
    ensures LocalparamTail(SkipBlanks(h.rest)) == Some(CommentText(comment))
  {
    LocalparamTailOf(value, comment);
    TrailingCommentOf(comment);
  }

  /** A well-formed localparam declaration is read back as its name, its
      bracket bounds and the type its comment (or its `signed` keyword) gives;
      the value itself is not evaluated. */
  lemma ParseLocalparamLine(signedKeyword: bool, msb: string, lsb: string, name: string, value: string, comment: Option<string>)
    requires msb != [] && AllDigits(msb) && lsb != [] && AllDigits(lsb) && WordName(name) && PlainValue(value)
    requires comment.Some? && comment.value != [] ==> !IsSpace(comment.value[|comment.value| - 1])
    ensures ParseLocalparam(LocalparamLine(signedKeyword, msb, lsb, name, value, comment))
      == Some(Decl(name, DeclType(signedKeyword, DecimalValue(msb), DecimalValue(lsb), comment),
                   DecimalValue(msb), DecimalValue(lsb)))
  {
    LocalparamLineStrip(signedKeyword, msb, lsb, name, value, comment);
    LocalparamDeclLine(signedKeyword, msb, lsb, name, value, comment);
  }

  /** The type a declaration gets from a comment that starts with a type token:
      the token's sign and frac, with the width of the bracket bounds. */
  lemma CommentTypeToken(signedKeyword: bool, msb: nat, lsb: nat, c: char, d1: string, d2: string, tail: string)
    requires c == 'S' || c == 'U'
    requires d1 != [] && AllDigits(d1) && d2 != [] && AllDigits(d2)
    requires tail == [] || !IsDigit(tail[0])
    ensures DeclType(signedKeyword, msb, lsb, Some(TokenLine(c, d1, d2, tail)))
      == Ty(c == 'S', msb - lsb + 1, DecimalValue(d2))
  {
    var s := TokenLine(c, d1, d2, tail);
    TypeTokenOf(c, d1, d2, tail);
    assert s[0..] == s;
  }

}
