# Verified model of the nextp8 fixed-point checker, SD-card SPI model and envelope table

This project models three integer-only parts of the nextp8 core in Dafny and
proves properties of them.

**The fixed-point type checker for Verilog** (`scripts/fixed_point_checker.py`).
It reads a Verilog file and first collects the declared types of registers
and localparams. A type is written `S<total>F<frac>` or `U<total>F<frac>`,
for signed or unsigned with `total` bits of which `frac` are fractional.
It then walks the lines. For each annotation comment (`// TYPE name = expr`
or `// expr = TYPE`), it computes the type of the expression and compares it
with the declared type. It also checks the Verilog assignment that follows
the comment, and flags fractional arithmetic that has no comment. The model
has these parts:
- the type record and its token parser and printer (`FixedPoint`);
- the decoding of sized and bare number literals (`Literals`);
- the width, frac and sign rules of the operators, in the strict and the
  truncating mode (`Operators`);
- the tokenizer and precedence parser of the expression grammar (`Syntax`);
- a printer for syntax trees of the shape the grammar gives, and the proof
  that lexing and parsing the printed text gives the tree back, with the
  terminal priorities of the lexer (`SyntaxFacts`);
- the evaluation of a syntax tree by the transformer's rule callbacks, with
  the advisories they append kept as an ordered list (`Transformer`,
  `EvaluationFacts`);
- the consistency check (`Overflow`);
- the declaration scanner and the type database (`Declarations`);
- the comment and assignment parsers (`Comments`);
- the line scan that produces the report list (`Analyzer`).

The checker object is a class, `Analyzer.FixedPointChecker`. Its methods
update the known types and known registers in place. The scan loop, the
operator folds and the concatenation loops are methods with loop invariants.
Each is proved against a function that the properties are stated about.

**The SD-card SPI byte shifter** (`c_models/sdspi.cpp`). Each call of the
SPI object moves a state machine one tick. The machine walks `state` from 7
down to 0, toggles `SCLK`, drives `MOSI` from `data_in` and samples `MISO`
into `data_out`, most significant bit first. `Advance` catches the object up
with the processor. It makes three calls per instruction executed since the
last access, with the instruction count clamped to 1..100. `SdSpi.Spi` is the
object with its fields, and `Spi.Tick` is one call. `SdSpi.Port` holds the
object and the previous program counter. It carries `Advance` and the C entry
points that set and read fields.

**The envelope increment table** (`scripts/generate_note_offset_lut.py`).
For every SFX speed byte `s` the increment is `2^24 div (183 * s)`. The
script prints the table as a Verilog `initial` block with four assignments
to a line.

Where the code behaves differently from what its comments or docstrings say,
the model follows the code:
- `parse_type` compares the digit strings of the total and the frac, not
  their values. So `S8F8` is rejected but `S08F8` is accepted
  (`FixedPoint.LeadingZeroEscapesSignedCheck`).
- The parser passes a replication `{n{v}}` to the concatenation callback
  as a single argument. The callback's loop keeps no element of a
  one-argument list, so the type of every replication is `U0F0`
  (`EvaluationFacts.ReplicationCollapses`). The replication rule itself is
  modelled as written (`Transformer.ReplicationRule`).
- The concatenation callback keeps the arguments at even positions below
  the last one, that is `|args| / 2` of them (`Transformer.Collected`).
- The identifier callback runs before the array callbacks. So an unknown
  array name fails with "Unknown identifier", not "Unknown array".
- Every register gets a type, so the set of known registers is a subset of
  the known types. An unknown identifier is therefore never a register, and
  `MISSING_TYPE` is never reported (`Analyzer.AnalysisNeverMissingType`).
- The second localparam branch of `build_type_database` cannot be reached.
  Localparams never become registers (`Declarations.AddLocalparam`,
  `Declarations.RegistersFromRegLines`).
- `parse_comment` runs outside the `try` of `analyze_file`. An annotation
  whose type token is signed with equal digit strings therefore raises out
  of the whole scan. The model returns `Aborted(line, token)`
  (`Analyzer.AbortsOnBadType`).
- `last_was_comment` is cleared by blank lines and by comments that are not
  annotations, not only by the next code line. An annotation followed by a
  blank line is paired with the next assignment, and that assignment is
  also checked on its own for a missing comment.
- A shift by the literal 0 is reported twice: by the shift chain and by the
  shift rule (`EvaluationFacts.ZeroShiftReportedTwice`).
- The table generator's docstring says the increment reaches exactly 2^24
  after `s` ticks. The floor division only brackets it: `s` ticks stay
  within 2^24, and one more unit per tick would pass it
  (`NoteOffsetLut.IncBracket`).

## Model

| member | source | states |
|---|---|---|
| FixedPoint.Ty.IntBits | scripts/fixed_point_checker.py:44-47 | the integer bits, sign bit included, and the frac add up to the total |
| FixedPoint.TypeString | scripts/fixed_point_checker.py:49-51 | the rendering starts with `S` exactly for a signed type and `U` exactly for an unsigned one |
| FixedPoint.ParseType | scripts/fixed_point_checker.py:778-787 | an accepted token gives non-negative widths and the sign of its first letter; a rejected one fails with the invalid-type error naming the token |
| FixedPoint.ParseToken | scripts/fixed_point_checker.py:778-787 | a well-formed token `[SU]<d1>F<d2>` is read as the decimal values of `d1` and `d2`, and is rejected exactly when it is signed with `d1 == d2` |
| FixedPoint.RejectsSignedWithoutIntegerBits | scripts/fixed_point_checker.py:785-786 | every signed token with identical total and frac digit strings is rejected |
| FixedPoint.PrintParseRoundTrip | scripts/fixed_point_checker.py:778-787 | every canonical token, without leading zeros and not signed with equal digit strings, is accepted, and printing the parsed type gives the token back |
| FixedPoint.ParsePrintRoundTrip | scripts/fixed_point_checker.py:49-51 | every type with non-negative widths that leaves a signed type an integer bit prints to a token that parses back to the same type |
| FixedPoint.LeadingZeroEscapesSignedCheck | scripts/fixed_point_checker.py:785 | `S08F8` is accepted as a signed type with zero integer bits, because the check compares strings |
| FixedPoint.TrailingTextIgnored | scripts/fixed_point_checker.py:780 | only a prefix must match: `U8F0x` parses as `U8F0` |
| Literals.PyInt | scripts/fixed_point_checker.py:277-283 | when `int(s, base)` accepts a word that has no radix prefix, the word is well-formed digits of the base |
| Literals.Split | scripts/fixed_point_checker.py:272-274 | the literal pattern matches a leading run of digits as the size, and a sized part carries a non-empty word of `\w` characters |
| Literals.SplitSized | scripts/fixed_point_checker.py:272-274 | a token `<size>'<fmt><word>` splits into exactly its size, format and word |
| Literals.SignedReinterpret | scripts/fixed_point_checker.py:282-285 | the `sd` value is unchanged or lowered by 2^n, and a value below 2^n lands in the signed n-bit range |
| Literals.DecodeNumber | scripts/fixed_point_checker.py:256-296 | a token is set apart as a decimal-point number exactly when it contains `.`; every decoded integer literal has frac 0 and a non-negative width, and a signed one has at least one bit |
| Literals.SignedDecimalLiteral | scripts/fixed_point_checker.py:282-290 | `<n>'sd<v>` is a signed n-bit frac-0 literal whose value is `v - 2^n` when `v > 2^(n-1) - 1`, else `v` |
| Literals.SignedWrapExample | scripts/fixed_point_checker.py:282-285 | `8'sd200` decodes to -56 with type `S8F0` |
| Literals.SignedLiteralInRange | scripts/fixed_point_checker.py:282-285 | an `sd` literal whose digits fit n bits decodes to a value in the signed n-bit range that differs from the digits by 0 or 2^n |
| Literals.UnsignedSizedLiteral | scripts/fixed_point_checker.py:276-292 | `h`, `d` and `b` literals decode exactly when `int` accepts the word in base 16, 10 or 2, as unsigned n-bit frac-0 literals with that value |
| Literals.BareDecimalLiteral | scripts/fixed_point_checker.py:286-294 | a bare decimal is a `U32F0` literal with its own value |
| Operators.KeptWidth | scripts/fixed_point_checker.py:575-583 | truncating mode keeps the wider width and is signed only if both operands are; strict mode is signed if either is and keeps the wider width when both are fractional, else the fractional operand's width, falling back to the right one |
| Operators.AddTypes | scripts/fixed_point_checker.py:570-584 | the result frac is always the left operand's; a frac-mismatch advisory appears exactly when both are fractional and their fracs differ by more than 1; width and sign are those of `KeptWidth` |
| Operators.CombinedFrac | scripts/fixed_point_checker.py:597-600 | with both operands fractional the fracs add (multiply) or subtract (divide); otherwise the nonzero frac is taken, falling back to the right one |
| Operators.MulTypes | scripts/fixed_point_checker.py:586-601 | strict multiplication of two fractional operands adds the widths and is signed if either is; in every other case width and sign are those of `KeptWidth`; the frac is `CombinedFrac` |
| Operators.DivTypes | scripts/fixed_point_checker.py:603-618 | division keeps the `KeptWidth` width and sign, and the frac is the difference when both are fractional |
| Operators.ShiftTypes | scripts/fixed_point_checker.py:620-652 | a non-literal amount is an error; otherwise the sign is kept, `<<` adds the amount to the width and to a nonzero frac, `>>`/`>>>` subtract it, and the advisories are the sign mismatch of the operator followed by the redundant-shift one for amount 0 |
| Operators.StrictProductFits | scripts/fixed_point_checker.py:586-601 | the strict type of a product of two fractional operands holds the product of any two values their types hold, at the summed scale |
| Operators.ShiftLeftFits | scripts/fixed_point_checker.py:620-628 | a left shift by a literal n gives a type that holds the value times 2^n |
| Operators.ShiftRoundTrip | scripts/fixed_point_checker.py:620-652 | for a non-negative frac, shifting left by a literal n and back right by n restores the type exactly, for both right shifts |
| Operators.ShiftRoundTripNeedsFrac | scripts/fixed_point_checker.py:624-627 | with a negative frac the round trip does not restore the type |
| Operators.StrictSumHasNoCarryBit | scripts/fixed_point_checker.py:579-583 | strict addition keeps `U8F0` for two `U8F0` operands although their sum can need a ninth bit |
| Operators.ProductExample | scripts/fixed_point_checker.py:592-598 | `S12F11 * S12F11` is `S24F22` in strict mode |
| Overflow.CheckOverflow | scripts/fixed_point_checker.py:838-860 | the width issue is present exactly when the computed width exceeds twice the declared one, the frac issue exactly when the fracs differ, and the sign issue exactly when the signs differ outside the one-bit widening in the matching direction; no other issue appears |
| Overflow.CheckPassesIff | scripts/fixed_point_checker.py:838-860 | the check passes exactly when the width is at most twice the declared one, the fracs agree and the signs agree up to the one-bit widening |
| Overflow.SelfCheck | scripts/fixed_point_checker.py:838-860 | a type checked against itself passes exactly when its width is non-negative |
| Overflow.WiderResultPasses | scripts/fixed_point_checker.py:842-845 | a result up to twice the declared width, with the declared sign and frac, passes |
| Overflow.WideningIsDirectional | scripts/fixed_point_checker.py:852-858 | a signed result one bit wider than an unsigned declaration passes, and an unsigned result one bit wider than a signed declaration is a sign mismatch |
| Syntax.IdentLen | scripts/fixed_point_checker.py:109 | a matched identifier starts with a letter or `_` and consists of word characters |
| Syntax.SizedLen | scripts/fixed_point_checker.py:110 | the sized-literal match never runs past the end of the text |
| Syntax.DecimalLen | scripts/fixed_point_checker.py:111 | the decimal match never runs past the end of the text |
| Syntax.NextToken | scripts/fixed_point_checker.py:108-120 | each token consumes at least one character, and right after a type token no type, `abs` or `signed` keyword is lexed |
| Syntax.Lex | scripts/fixed_point_checker.py:108-123 | lexing fails only with a syntax error, and yields at most one token per character |
| Syntax.ParseChain | scripts/fixed_point_checker.py:73-77 | one precedence level parses to a chain node of that level, consuming part of the input, or fails with a syntax error |
| Syntax.ParseSteps | scripts/fixed_point_checker.py:73-77 | the operator list stays within the input, fails only with a syntax error, and every operator belongs to the chain's level |
| Syntax.ParseOperand | scripts/fixed_point_checker.py:73-79 | an operand consumes part of the input or fails with a syntax error |
| Syntax.ParseNameUse | scripts/fixed_point_checker.py:101 | a name parses as an identifier, an array access or a bit slice, or fails with a syntax error |
| Syntax.ParseElements | scripts/fixed_point_checker.py:97 | the elements of a concatenation consume part of the input or fail with a syntax error |
| Syntax.ParseCallArgument | scripts/fixed_point_checker.py:99-100 | the parenthesised argument of `abs`/`signed` consumes part of the input or fails with a syntax error |
| Syntax.ParseAtom | scripts/fixed_point_checker.py:79-102 | an atom consumes part of the input or fails with a syntax error |
| Syntax.ParseExpression | scripts/fixed_point_checker.py:70-73 | a whole expression parses to a chain of the additive level, or fails with a syntax error |
| SyntaxFacts.OpRankLevel | scripts/fixed_point_checker.py:72-76 | an operator belongs to a precedence level exactly when its rank is the level's: `+ -` rank 3, `* /` rank 2, the shifts rank 1 |
| SyntaxFacts.ExpressionRoundTrip | scripts/fixed_point_checker.py:70-123 | lexing and parsing the printed text of any tree of the grammar's shape gives that tree back: three nested levels of left-to-right operator lists, a `~` reaching to the end of its expression, a type annotating only a name use or a number |
| SyntaxFacts.ChainReadBack | scripts/fixed_point_checker.py:72-76 | one precedence level reads its chain back from the chain's tokens and stops at a closing token or at an operator of a looser level |
| SyntaxFacts.StepsReadBack | scripts/fixed_point_checker.py:72-76 | the operators of one level are read left to right, each with its right operand |
| SyntaxFacts.OperandReadBack | scripts/fixed_point_checker.py:72-78 | the operand of a level is read back as the chain of the next tighter level, or as an atom below the shifts |
| SyntaxFacts.AtomReadBack | scripts/fixed_point_checker.py:78-101 | every atom form is read back from its tokens: number, name use, annotation, parentheses, concatenation, replication, `abs`, `signed`, `~` and a bare type |
| SyntaxFacts.NameUseReadBack | scripts/fixed_point_checker.py:100 | an identifier, an array access and a bit slice are each read back from their tokens |
| SyntaxFacts.LexRender | scripts/fixed_point_checker.py:108-123 | tokens that are each read from their own text, in the state the previous token leaves, are lexed back from their blank-separated text |
| SyntaxFacts.NextTokenBeforeBlank | scripts/fixed_point_checker.py:108-123 | a blank ends every token: the token read from a text followed by a blank is the one read from the text alone |
| SyntaxFacts.OperatorReadsBack | scripts/fixed_point_checker.py:114-120 | every operator is lexed from its own symbol, `>>>` as one token |
| SyntaxFacts.FixedReadsBack | scripts/fixed_point_checker.py:112-113 | `abs`, `signed`, `$signed` and every punctuation token are lexed from their own text |
| SyntaxFacts.ChainSpelled | scripts/fixed_point_checker.py:108-123 | every token of a printed tree is lexed from its own text in the state the token before it leaves |
| SyntaxFacts.KeywordPrefixSplits | scripts/fixed_point_checker.py:109-112 | `abs` outranks identifiers: `abs` followed by any text lexes as the keyword followed by that text's tokens, so `absolute` is `abs` then `olute` |
| SyntaxFacts.TypePrefixSplits | scripts/fixed_point_checker.py:108-109 | a type token outranks identifiers: a complete type token followed by a non-digit lexes as that type token, so `U8F0x` is `U8F0` then `x` |
| SyntaxFacts.KeywordAfterType | scripts/fixed_point_checker.py:90-92 | right after a type token and a blank, any word is an identifier, `abs` and `signed` included |
| Transformer.AnnotateRule | scripts/fixed_point_checker.py:226-253 | an annotated literal takes the declared type; any other operand keeps its computed type, with a mismatch advisory exactly when the declared type differs |
| Transformer.AbsRule | scripts/fixed_point_checker.py:319-330 | `abs` is unsigned with the operand's widths, and adds the non-standard advisory only in truncating mode |
| Transformer.SignedRule | scripts/fixed_point_checker.py:332-343 | the cast is signed with the operand's widths, and adds an advisory exactly for the spelling without `$` |
| Transformer.SliceRule | scripts/fixed_point_checker.py:374-393 | a constant slice has width `hi - lo + 1` and fails exactly when that is not positive; a non-constant slice keeps the base width with an advisory; sign and frac always come from the array |
| Transformer.ReplicationRule | scripts/fixed_point_checker.py:449-463 | with a literal count the width is count times the value width, with the value's frac; otherwise the width is 32 and the frac 0; the sign is the value's |
| Transformer.Collected | scripts/fixed_point_checker.py:399-419 | the collected elements are exactly the arguments at even positions, `|args| / 2` of them |
| Transformer.ConcatType | scripts/fixed_point_checker.py:420-441 | the width is the sum of the element widths; sign and frac are the last element's, or `U0F0` for none |
| Transformer.ConcatRule | scripts/fixed_point_checker.py:395-441 | a concatenation has the type of its collected elements and is not a literal |
| Transformer.ConcatenationLoop | scripts/fixed_point_checker.py:395-441 | the two loops of the callback compute the type and the texts of the collected elements |
| Transformer.CollectLoop | scripts/fixed_point_checker.py:399-419 | the first loop collects exactly the elements of `Collected` |
| Transformer.WidthLoop | scripts/fixed_point_checker.py:420-441 | the second loop computes `ConcatType` and the element texts |
| Transformer.ApplyStep | scripts/fixed_point_checker.py:140-218 | one operator of a chain renders `(left op right)`, only appends advisories, and fails exactly for a shift by a non-literal |
| Transformer.FoldLoop | scripts/fixed_point_checker.py:140-218 | the fold loop of `expr`, `term` and `factor` gives the left fold of the operators |
| Transformer.FoldFrom | scripts/fixed_point_checker.py:140-218 | the specification of the fold loop: `FoldLoop` is proved equal to it, and `FoldFailsOnShiftOnly` and `FoldFromAt` state how it proceeds and fails |
| Transformer.FoldFromAt | scripts/fixed_point_checker.py:140-218 | the fold from any position takes that position's operator first and stops at its failure |
| Transformer.Eval | scripts/fixed_point_checker.py:226-463 | the evaluation of a tree by the rule callbacks; what it gives is stated by the rule functions above and the `EvaluationFacts` lemmas |
| Transformer.ChainRule | scripts/fixed_point_checker.py:140-218 | a lone operand passes through unchanged, literal included; a real chain is never a literal |
| EvaluationFacts.DecodeBlamesNoName | scripts/fixed_point_checker.py:256-296 | a literal fails to decode only with an error about the literal itself |
| EvaluationFacts.IdentifierTakesTableType | scripts/fixed_point_checker.py:298-311 | an identifier evaluates exactly when the table knows it, to its table type, as a non-literal without advisories; otherwise "Unknown identifier" |
| EvaluationFacts.NumberTakesDecodedType | scripts/fixed_point_checker.py:256-296 | a number evaluates exactly when it decodes, to the decoded type and value, without advisories |
| EvaluationFacts.ParenPassesThrough | scripts/fixed_point_checker.py:313-317 | parentheses keep their operand's failure, or its type, literal value and advisories |
| EvaluationFacts.NegatePassesThrough | scripts/fixed_point_checker.py:443-447 | `~` keeps its operand's failure, or its type, literal value and advisories |
| EvaluationFacts.IndexTakesArrayType | scripts/fixed_point_checker.py:345-372 | an access to an unknown array fails with "Unknown identifier"; otherwise it has the array's type whatever the index, and fails only when the index does |
| EvaluationFacts.AnnotatedNumberTakesDeclared | scripts/fixed_point_checker.py:226-268 | a number under a type annotation takes the declared type with no advisory, both an integer literal that decodes and a decimal-point literal; a decimal-point literal on its own does not evaluate |
| EvaluationFacts.FoldFailsOnShiftOnly | scripts/fixed_point_checker.py:620-643 | a chain fold fails only on a shift whose amount is not a literal |
| EvaluationFacts.UnknownMeansMissing | scripts/fixed_point_checker.py:298-311 | evaluation reports "Unknown identifier" only for names missing from the table |
| EvaluationFacts.StepsBlameMissing | scripts/fixed_point_checker.py:298-311 | evaluating the operands of a chain reports "Unknown identifier" only for names missing from the table |
| EvaluationFacts.PartsBlameMissing | scripts/fixed_point_checker.py:298-311 | evaluating the elements of a concatenation reports "Unknown identifier" only for names missing from the table |
| EvaluationFacts.ZeroShiftReportedTwice | scripts/fixed_point_checker.py:204-206 | a shift by the literal 0 keeps the type and appends the chain's advisory, at most one sign advisory, then the shift rule's advisory |
| EvaluationFacts.ReplicationCollapses | scripts/fixed_point_checker.py:396-441 | every replication that evaluates has type `U0F0` |
| EvaluationFacts.ConcatenationWidth | scripts/fixed_point_checker.py:420-441 | an evaluated concatenation's width is the sum of the kept element widths, with the last kept element's sign and frac |
| Comments.DropLabel | scripts/fixed_point_checker.py:792 | removing a descriptive label keeps the leading `//`; what it removes is stated by `LabelDropped` and `KeepsLabel` |
| Comments.LabelColon | scripts/fixed_point_checker.py:792 | the colon that ends a label, when there is one, is a `:` after the leading `//` |
| Comments.LabelDropped | scripts/fixed_point_checker.py:792 | for every non-empty label of letters and spaces, `//<label>:<rest>` becomes `// ` followed by `rest` without its leading blanks |
| Comments.KeepsLabel | scripts/fixed_point_checker.py:792 | a comment `// u`, `u` not starting with a blank, whose leading run of letters and spaces is not followed by `:` is left unchanged |
| Comments.LabelledComment | scripts/fixed_point_checker.py:789-808 | a comment `//<label>: u` is read exactly as `// u` |
| Comments.LabelledTypeFirstLine | scripts/fixed_point_checker.py:789-799 | `// <label>: TYPE name = expr` yields the declared type and the expression, or a bad-type report for an `S` token whose two numbers are spelled the same, such as `S8F8` |
| Comments.LabelledTypeLastLine | scripts/fixed_point_checker.py:789-806 | `// <label>: expr = TYPE` yields the declared type and the expression, or a bad-type report for an `S` token whose two numbers are spelled the same, such as `S8F8` |
| Comments.MatchTypeFirst | scripts/fixed_point_checker.py:795-799 | the first form's match; `ReadFirstForm` and `ParseTypeFirstLine` state what it yields |
| Comments.MatchTypeLast | scripts/fixed_point_checker.py:802-806 | the second form yields a complete type token |
| Comments.ParseComment | scripts/fixed_point_checker.py:789-808 | a line that is not a comment carries no annotation |
| Comments.CommentOf | scripts/fixed_point_checker.py:789-793 | text that does not start with `//` carries no annotation |
| Comments.ParseTypeFirstLine | scripts/fixed_point_checker.py:794-799 | `// TYPE name = expr` is read back as its type and expression, or as an invalid type for a signed token with equal digit strings |
| Comments.ParseTypeLastLine | scripts/fixed_point_checker.py:801-806 | `// expr = TYPE` is read back as its type and expression, or as an invalid type for a signed token with equal digit strings |
| Comments.ReadFirstForm | scripts/fixed_point_checker.py:794-799 | when the first form matches it wins, and its token's parse decides the annotation |
| Comments.ReadLastForm | scripts/fixed_point_checker.py:801-806 | when only the second form matches, its token's parse decides the annotation |
| Comments.CodePart | scripts/fixed_point_checker.py:1033 | the code part is a prefix of the line without any `//` |
| Comments.ParseVerilogAssignment | scripts/fixed_point_checker.py:1029-1046 | a line is an assignment exactly when its cleaned code part contains `=` |
| Comments.ParseAssignmentLine | scripts/fixed_point_checker.py:1029-1046 | `lhs <= rhs;` and `lhs = rhs;` split back into exactly their two sides |
| Comments.AssignmentFrom | scripts/fixed_point_checker.py:1075 | the assigning `=` found is the leftmost one not preceded by `=`, `!`, `<` or `>` and followed by text |
| Comments.IfSearch | scripts/fixed_point_checker.py:1080 | a matched `if (...)` condition is stripped |
| Comments.ExtractVerilogExpression | scripts/fixed_point_checker.py:1048-1087 | an extracted expression is stripped |
| Comments.ExtractAssignmentLine | scripts/fixed_point_checker.py:1068-1077 | the expression extracted from an assignment line is its right side |
| Comments.ExtractIfLine | scripts/fixed_point_checker.py:1079-1084 | the expression extracted from `if (cond)` is the condition |
| Declarations.FindTypeToken | scripts/fixed_point_checker.py:686 | the type token found is the first one in the comment |
| Declarations.DeclType | scripts/fixed_point_checker.py:679-701 | the width always comes from the bracket bounds; sign and frac come from the first type token of the comment, else from the `signed` keyword with frac 0 |
| Declarations.ParseReg | scripts/fixed_point_checker.py:669-703 | a parsed register has a name and the width of its bracket bounds |
| Declarations.ParseLocalparam | scripts/fixed_point_checker.py:705-738 | a parsed localparam has a name and the width of its bracket bounds |
| Declarations.ParseRegLine | scripts/fixed_point_checker.py:669-703 | a well-formed register line is read back as its name, bounds and the type its comment or `signed` keyword gives |
| Declarations.ParseLocalparamLine | scripts/fixed_point_checker.py:705-738 | a well-formed localparam line is read back as its name, bounds and the type its comment or `signed` keyword gives |
| Declarations.CommentTypeToken | scripts/fixed_point_checker.py:684-697 | a comment starting with a type token gives its sign and frac with the bracket width, whatever width the token states |
| Declarations.InitialDb | scripts/fixed_point_checker.py:660-667 | the initial database knows `PITCH_REF_C2` and no register |
| Declarations.AddRegister | scripts/fixed_point_checker.py:745-758 | a register becomes a known register and type, and so does its name without an `_8x` suffix; nothing else is added |
| Declarations.AddLocalparam | scripts/fixed_point_checker.py:760-765 | a localparam gets its declared type and does not become a register; every other known type is kept |
| Declarations.ApplyDecl | scripts/fixed_point_checker.py:744-766 | the registers grow only when the register parser matched, and then by exactly the names that declaration registers |
| Declarations.DeclStep | scripts/fixed_point_checker.py:744-776 | a register line adds the register; a localparam line only adds a type; any other line changes nothing |
| Declarations.StepRegisters | scripts/fixed_point_checker.py:744-776 | one line adds to the registers exactly the names its register declaration registers, and none for any other line |
| Declarations.BuildDb | scripts/fixed_point_checker.py:740-776 | the database after the lines in order; `BuildTypeDatabase` is proved equal to it, and `BuildDbValid` and `RegistersFromRegLines` state what it holds |
| Declarations.BuildDbValid | scripts/fixed_point_checker.py:740-776 | reading declarations never leaves a register without a type |
| Declarations.RegistersFromRegLines | scripts/fixed_point_checker.py:740-776 | the registers after a scan are exactly those known before plus the names the register declarations among the lines register |
| Analyzer.StatusOf | scripts/fixed_point_checker.py:917 | the status is OK exactly when there are no issues, else ERROR |
| Analyzer.ViewOf | scripts/fixed_point_checker.py:876-884 | a comment line is never a code line, and only a comment line carries an annotation |
| Analyzer.EvaluateExpression | scripts/fixed_point_checker.py:810-836 | an "Unknown identifier" failure names an identifier the table lacks |
| Analyzer.NextCodeLine | scripts/fixed_point_checker.py:886-896 | the line found is the first non-blank, non-comment line from the start index on |
| Analyzer.PairedLine | scripts/fixed_point_checker.py:886-899 | an annotation is paired with a later line of the file and that line's stripped assignment |
| Analyzer.VerilogCheckOf | scripts/fixed_point_checker.py:898-951 | a Verilog check is made exactly when the paired line is an assignment, and checks its right side |
| Analyzer.CheckRight | scripts/fixed_point_checker.py:902-940 | the right side is PARSE_ERROR exactly when it fails to evaluate; otherwise its issues are the consistency check against the declared type and its own advisories, plus a type mismatch exactly when its type differs from the comment's; OK exactly when there are none |
| Analyzer.AnnotationReport | scripts/fixed_point_checker.py:879-995 | an annotation report has the comment's line, expression and declared type; it is MISSING_TYPE exactly for an unknown identifier that is a register, PARSE_ERROR for every other failure, and its status agrees with its issues |
| Analyzer.UnpairedReport | scripts/fixed_point_checker.py:1003-1025 | an unannotated line is reported exactly when it is an assignment whose right side evaluates to a fractional type and contains `+`, `-`, `*` or `/`; the report is MISSING_COMMENT with the evaluation's advisories plus the missing-comment issue |
| Analyzer.ScanStatusAgrees | scripts/fixed_point_checker.py:875-1027 | in every report of a completed scan the status is OK exactly when its issue list is empty, and likewise for the Verilog part |
| Analyzer.ScanInOrder | scripts/fixed_point_checker.py:875-1027 | reports come in line order, each paired Verilog line after its annotation |
| Analyzer.AbortsOnBadType | scripts/fixed_point_checker.py:878-881 | a scan stops only at a comment whose annotation carries an invalid type token |
| Analyzer.NoMissingType | scripts/fixed_point_checker.py:964-976 | when every register has a type, no report is MISSING_TYPE |
| Analyzer.AnalysisNeverMissingType | scripts/fixed_point_checker.py:966-976 | the scan of any file never reports MISSING_TYPE |
| Analyzer.AnnotatedLineSkipped | scripts/fixed_point_checker.py:999-1002 | the code line right after an annotation is not checked again for a missing comment |
| Analyzer.FixedPointChecker.constructor | scripts/fixed_point_checker.py:660-667 | a new checker holds the initial database |
| Analyzer.FixedPointChecker.BuildTypeDatabase | scripts/fixed_point_checker.py:740-776 | the known types and registers become the database read from the lines, in order |
| Analyzer.FixedPointChecker.RecordDeclaration | scripts/fixed_point_checker.py:744-766 | one line updates the database as `DeclStep` says |
| Analyzer.FixedPointChecker.RecordLocalparam | scripts/fixed_point_checker.py:760-765 | one localparam declaration updates the database as `AddLocalparam` says |
| Analyzer.FixedPointChecker.RecordRegister | scripts/fixed_point_checker.py:745-758 | one register declaration updates the database as `AddRegister` says |
| Analyzer.FixedPointChecker.AnalyzeFile | scripts/fixed_point_checker.py:862-1027 | the declarations are read first; the result is the scan of the lines with that database, and from a fresh checker it is `Analysis(lines)` |
| Analyzer.AnalyzeLine | scripts/fixed_point_checker.py:876-1026 | one turn of the scan; `AnnotationReport`, `UnpairedReport` and `AnnotatedLineSkipped` state its reports |
| Analyzer.ScanFrom | scripts/fixed_point_checker.py:873-1027 | the scan from a line on; `ScanStatusAgrees`, `ScanInOrder`, `AbortsOnBadType` and `NoMissingType` state its properties |
| Analyzer.Analysis | scripts/fixed_point_checker.py:862-1027 | `analyze_file` on a file's lines; `AnalyzeFile` is proved to give it from a fresh checker, and `AnalysisNeverMissingType` holds of it |
| Analyzer.Scan | scripts/fixed_point_checker.py:873-1027 | the `while` loop with `last_was_comment` produces exactly the scan's outcome |
| Analyzer.AnalyzeLineAt | scripts/fixed_point_checker.py:876-1026 | one turn of the loop gives the line's report and the new `last_was_comment` |
| Analyzer.NextVerilogLine | scripts/fixed_point_checker.py:887-896 | the search loop finds the first candidate Verilog line |
| SdSpi.InitialRegs | c_models/sdspi.cpp:107-121 | a new object is idle: state 7, clock low, not ready |
| SdSpi.WithBitIs | c_models/sdspi.cpp:34 | after replacing bit k by the sampled bit, bit k holds that bit and every other bit is the old one |
| SdSpi.SetBit | c_models/sdspi.cpp:34 | replacing bit k of a byte by the sampled bit stays a byte |
| SdSpi.SetBitAt | c_models/sdspi.cpp:34 | the replacement sets bit k to the sampled value and keeps the other seven bits |
| SdSpi.Fire | c_models/sdspi.cpp:26-85 | an enabled tick keeps `state` in 0..7 and changes only `ready`, `SCLK`, `ww`, `state` and `data_out` |
| SdSpi.Step | c_models/sdspi.cpp:21-101 | every call keeps `state` in 0..7 |
| SdSpi.Steps | c_models/sdspi.cpp:133-134 | any number of calls keeps `state` in 0..7 |
| SdSpi.StepsSplit | c_models/sdspi.cpp:133-134 | running two stretches of calls one after the other is running them together |
| SdSpi.CounterAndEnable | c_models/sdspi.cpp:24-27 | an enabled step clears the counter; any other step increments it and leaves the state, clock, `ready`, `ww` and `data_out` unchanged |
| SdSpi.SamplesOneBit | c_models/sdspi.cpp:32-79 | a step leaves `data_out` alone or sets bit `state` to the sampled `MISO` and keeps every other bit |
| SdSpi.DrivesDataBit | c_models/sdspi.cpp:25 | after every step `MOSI` is bit (old `state`) of `data_in` |
| SdSpi.StartsTransfer | c_models/sdspi.cpp:28-31 | a write request in the idle state sets `ready` and the clock, latches `w` into `ww` and keeps state 7 |
| SdSpi.ShiftsOneBit | c_models/sdspi.cpp:32-79 | on an enabled step a low clock rises with the state kept; a high clock falls with the state counting down and bit `state` sampled; from state 0 it returns to 7 with `ready` cleared and `ww` latched |
| SdSpi.StaysIdle | c_models/sdspi.cpp:80-84 | an idle machine without a new write request stays idle with the clock low |
| SdSpi.ShiftPair | c_models/sdspi.cpp:32-41 | at full speed, two calls from a high clock move one state down and sample one bit |
| SdSpi.Transfer | c_models/sdspi.cpp:28-84 | at full speed, a transfer running from state k ends idle with `ready` cleared, bits k..0 of `data_out` holding the `MISO` values sampled, most significant first, and the higher bits unchanged |
| SdSpi.TickCount | c_models/sdspi.cpp:126-137 | the number of calls one `Advance` makes; `TickCountBounds` states its range |
| SdSpi.TickCountBounds | c_models/sdspi.cpp:126-137 | the first `Advance` makes no call; every later one makes three calls per instruction, between 3 and 300, and exactly 3 times the distance when that is 1..100 |
| SdSpi.Spi.constructor | c_models/sdspi.cpp:107-121 | a new object has the initial fields |
| SdSpi.Spi.Tick | c_models/sdspi.cpp:21-101 | one call computes every new field from the old ones and commits them together, as `Step` |
| SdSpi.Spi.MoveMachine | c_models/sdspi.cpp:26-85 | the sixteen-branch chain gives the new `ready`, `SCLK`, `ww`, `state` and `data_out` of `Fire` |
| SdSpi.Port.constructor | c_models/sdspi.cpp:14 | no program counter has been recorded yet |
| SdSpi.Port.Advance | c_models/sdspi.cpp:126-137 | the object makes `TickCount` calls answered by the cards, and the program counter is recorded |
| SdSpi.Port.SetChipSelect | c_models/sdspi.cpp:140-145 | catch up, then set the chip select |
| SdSpi.Port.SetDataIn | c_models/sdspi.cpp:147-151 | catch up, then set `data_in` |
| SdSpi.Port.SetDivider | c_models/sdspi.cpp:153-157 | catch up, then set the divider |
| SdSpi.Port.SetWriteEnable | c_models/sdspi.cpp:159-164 | catch up, then set `w` |
| SdSpi.Port.GetDataOut | c_models/sdspi.cpp:166-170 | catch up, then return `data_out` |
| SdSpi.Port.GetReady | c_models/sdspi.cpp:172-176 | catch up, then return `ready` |
| NoteOffsetLut.NoteOffsetInc | scripts/generate_note_offset_lut.py:15-19 | the increment of a speed byte; `IncOfZero`, `IncBracket`, `IncNonIncreasing` and `IncFitsEntry` state its value and range |
| NoteOffsetLut.IncOfZero | scripts/generate_note_offset_lut.py:17-18 | speed byte 0 gets increment 0 |
| NoteOffsetLut.IncBracket | scripts/generate_note_offset_lut.py:19 | `r * 183 * s <= 2^24 < (r + 1) * 183 * s` for every speed `s >= 1` |
| NoteOffsetLut.IncNonIncreasing | scripts/generate_note_offset_lut.py:19 | a slower speed never gets a larger increment |
| NoteOffsetLut.IncFitsEntry | scripts/generate_note_offset_lut.py:15-19 | every increment is below 2^17, the 17-bit entry width |
| NoteOffsetLut.Entries | scripts/generate_note_offset_lut.py:25 | the table has 256 entries and entry i is the increment of speed i |
| NoteOffsetLut.RowIndices | scripts/generate_note_offset_lut.py:55-62 | a line assigns its start and the following indices below 256, four of them unless it reaches the end |
| NoteOffsetLut.RowsInOrder | scripts/generate_note_offset_lut.py:55-63 | the first n lines assign indices 1, 2, ... in order, each once |
| NoteOffsetLut.RowsCoverTable | scripts/generate_note_offset_lut.py:55-63 | the 64 lines assign every index 1..255 exactly once and in order, four to a line except the last, which holds 253, 254 and 255 |
| NoteOffsetLut.RowOfIndex | scripts/generate_note_offset_lut.py:55 | index i is on line `(i - 1) / 4` and on no other |
| NoteOffsetLut.HexRoundTrip | scripts/generate_note_offset_lut.py:56 | the hexadecimal text of a number reads back as the number |
| NoteOffsetLut.Hex5RoundTrip | scripts/generate_note_offset_lut.py:56 | the five-digit hexadecimal text reads back as the entry, and an entry below 2^17 takes exactly five digits |
| NoteOffsetLut.ZeroLineValue | scripts/generate_note_offset_lut.py:52 | the line printed for index 0 assigns it the marker 0x1ffff |
| NoteOffsetLut.FormatRow | scripts/generate_note_offset_lut.py:56-63 | the appended line holds the assignments of the row's indices, in order |
| NoteOffsetLut.EmitRows | scripts/generate_note_offset_lut.py:55-63 | the loop prints 64 lines, line k being the row that starts at `4k + 1` |
| NoteOffsetLut.EmitTable | scripts/generate_note_offset_lut.py:46-65 | the Verilog block is the declaration, `initial begin`, the line for index 0, the 64 rows and `end` |

## Left out

- The Lark LALR parser generator and the `VisitError` unwrapping are not modelled. The grammar is parsed by a recursive-descent parser with the same precedence ladder and the same terminals.
- The regular-expression engine is not modelled. Each pattern the checker uses is written out as a small hand matcher.
- File reading (`open`, `readlines`), the width-mismatch warnings printed for declarations, and the console report of `main` are I/O. The model takes the file as a sequence of lines and leaves the printing out.
- Literals.DecodeNumber: a decimal-point literal gets no type of its own. In the source it is a number with a float value and no widths. Under a type annotation, the only place where the grammar lets it take a type, it takes the declared type in the model as in the source. Anywhere else the model's evaluation fails. The source instead carries the missing widths through the rules: much of the arithmetic on them raises, but some rules still yield a type (an array index ignores its index's type, and outside Verilog mode `0.5 + x`, with `x` an integer type, takes the width of `x` and a missing frac).
- The character classes are ASCII: digits are `0`-`9`, and word characters are ASCII letters, digits and `_`. Python's `\d`, `\w` and `int()` also accept other Unicode digits and letters. So `U٨F0`, written with an Arabic-Indic eight, is a type token in the source but not in the model.
- The `NUMBER` terminal callback and the "already a tuple" branches of the rules are not modelled, because they are never reached.
- The unreachable second localparam block of `build_type_database` is not modelled.
- Issue messages are constructors carrying the message's data, not formatted strings.
- Syntax.ParseExpression: the parser's own contracts state only what input is consumed, the error kind and the shape of the result. `SyntaxFacts.ExpressionRoundTrip` states the tree for the printed text of every tree of the grammar's shape. Two things are not proved: that every tree the parser returns has that shape, and that it rejects exactly the texts the LALR parser rejects. The same holds for Syntax.ParseChain, Syntax.ParseSteps, Syntax.ParseOperand, Syntax.ParseNameUse, Syntax.ParseElements, Syntax.ParseCallArgument and Syntax.ParseAtom.
- Syntax.NextToken: its own contract states consumption and the state after a type token. Which token the priorities give is stated by `SyntaxFacts.LexRender`, `SyntaxFacts.KeywordPrefixSplits`, `SyntaxFacts.TypePrefixSplits` and `SyntaxFacts.KeywordAfterType`, for texts of the printer's form and for these prefixes. The same holds for Syntax.Lex.
- Syntax.SizedLen: its contract bounds only the length of the match; the terminal's pattern is stated by its body. The same holds for Syntax.DecimalLen.
- Literals.PyInt: its contract states only what an accepted word without a radix prefix looks like. Python's full `int` grammar (signs, blanks, the underscore rules) is reduced to word characters.
- Analyzer.EvaluateExpression: its contract states only how an unknown name is blamed. The evaluation itself is `Transformer.Eval`, whose properties are the `EvaluationFacts` lemmas.
- The SD-card simulators, the loading of `sdcard.img` and the "both SPIs selected" warning are not modelled. The `MISO` answers of the two cards are inputs of each call, one pair per call, and each answer is a single bit.
- Program counters are plain integers, not addresses into memory. Their difference is taken modulo 2^32, as the unsigned `pc_inc` does.
- SdSpi.Transfer: the whole-byte transfer is proved only at full speed (a divider of 0 or less). Slower dividers insert idle ticks between clock edges; each of those ticks is covered by `CounterAndEnable`, but the whole transfer is not proved for them.
- SdSpi.Spi.Tick: `MISO` is modelled as 0 or 1, so the C shift `MISO << state` cannot set more than one bit.
- NoteOffsetLut.EmitTable: the diagnostic lines `main` prints before the table are left out, since they are console output.
