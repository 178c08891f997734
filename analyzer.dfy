/** The file scan of the checker: every annotation comment is evaluated and
    checked against its declared type and against the Verilog line that
    follows it, and unannotated fractional arithmetic is flagged. */
module Analyzer {
  import opened Text
  import opened Errors
  import opened FixedPoint
  import opened Issues
  import opened Operators
  import opened Syntax
  import opened Transformer
  import opened Overflow
  import opened Declarations
  import opened Comments
  import opened EvaluationFacts

  /** The verdict of one report: 'OK', 'ERROR', 'PARSE_ERROR', 'MISSING_TYPE'
      and 'MISSING_COMMENT' in the source. */
  datatype Status = OkStatus | ErrorStatus | ParseErrorStatus | MissingTypeStatus | MissingCommentStatus

  /** The check of the Verilog line paired with an annotation. */
  datatype VerilogCheck = VerilogCheck(line: nat, expression: string, computed: Option<Ty>, issues: seq<Issue>, status: Status)

  /** One entry of the result list. Fields the source leaves out of an entry
      are `None` here. */
  datatype Report = Report(
    line: nat,
    expression: string,
    computedText: Option<string>,
    declared: Option<Ty>,
    computed: Option<Ty>,
    issues: seq<Issue>,
    status: Status,
    verilog: Option<VerilogCheck>)

  /** What a scan of a whole file gives: the reports, or the line whose
      annotation carries an invalid type token, which ends the scan. */
  datatype Outcome = Completed(reports: seq<Report>) | Aborted(line: nat, token: string)

  /** 'OK' when nothing was found, else 'ERROR'. */
  function StatusOf(issues: seq<Issue>): (s: Status)
    ensures s == OkStatus <==> issues == []
    ensures s == OkStatus || s == ErrorStatus
  {
    if issues == [] then OkStatus else ErrorStatus
  }

  /** `evaluate_expression`: parse, then evaluate in strict mode. */
  function EvaluateExpression(table: Table, expression: string): (r: Result<Reduced>)
    ensures r.Err? && r.error.UnknownIdentifier? ==> r.error.name !in table
  {
    match ParseExpression(expression)
    case Err(e) => Err(e)
    case Ok(n) =>
      UnknownMeansMissing(Strict, table, n);
      Eval(Strict, table, n)
  }

  // ---------------------------------------------------------------------
  // Lines

  /** What the scan reads off one line: whether it is a comment, the
      annotation a comment carries, whether it is a candidate Verilog line,
      its assignment (split as the unpaired check splits it) and the same
      split of its stripped text (as the pairing splits it). */
  datatype LineView = LineView(
    isComment: bool,
    annotation: Annotation,
    isCode: bool,
    assignment: Option<(string, string)>,
    strippedAssignment: Option<(string, string)>)

  /** The view of one line. */
  function ViewOf(line: string): (v: LineView)
    ensures v.isComment ==> !v.isCode
    ensures !v.isComment ==> v.annotation == NoAnnotation
  {
    var s := Strip(line);
    LineView(StartsWith(s, "//"), ParseComment(line), s != [] && !StartsWith(s, "//"),
             ParseVerilogAssignment(line), ParseVerilogAssignment(s))
  }

  /** The views of all lines of a file. */
  function Views(lines: seq<string>): (vs: seq<LineView>)
    ensures |vs| == |lines| && forall k :: 0 <= k < |lines| ==> vs[k] == ViewOf(lines[k])
  {
    seq(|lines|, k requires 0 <= k < |lines| => ViewOf(lines[k]))
  }

  /** The first candidate Verilog line at index `from` or later. */
  function NextCodeLine(views: seq<LineView>, from: nat): (r: Option<nat>)
    ensures r.Some? ==> from <= r.value < |views| && views[r.value].isCode
    ensures forall k :: from <= k < |views| && (r.None? || k < r.value) ==> !views[k].isCode
    decreases |views| - from
  {
    if from >= |views| then None
    else if views[from].isCode then Some(from)
    else NextCodeLine(views, from + 1)
  }

  /** The index and the assignment of the line an annotation at `i` is
      paired with. */
  function PairedLine(views: seq<LineView>, i: nat): (r: Option<(nat, Option<(string, string)>)>)
    ensures r.Some? ==> i < r.value.0 < |views| && r.value.1 == views[r.value.0].strippedAssignment
  {
    match NextCodeLine(views, i + 1)
    case None => None
    case Some(j) => Some((j, views[j].strippedAssignment))
  }

  // ---------------------------------------------------------------------
  // Reports

  /** Each status agrees with the issues it summarises. */
  predicate StatusAgrees(r: Report) {
    (r.status == OkStatus <==> r.issues == [])
    && (r.verilog.Some? ==> (r.verilog.value.status == OkStatus <==> r.verilog.value.issues == []))
  }

  /** The check of the paired Verilog line (index `j`, assignment
      `assignment`) against the annotation's declared and computed types;
      nothing when that line is not an assignment. */
  function VerilogCheckOf(table: Table, declared: Ty, computed: Ty, j: nat, assignment: Option<(string, string)>): (r: Option<VerilogCheck>)
    ensures r.Some? <==> assignment.Some?
    ensures r.Some? ==> r.value == CheckRight(declared, computed, j, assignment.value.1, EvaluateExpression(table, assignment.value.1))
  {
    match assignment
    case None => None
    case Some((_, rhs)) => Some(CheckRight(declared, computed, j, rhs, EvaluateExpression(table, rhs)))
  }

  /** The check of the right side `rhs`, at line index `j`, evaluated to
      `evaluated`. */
  function CheckRight(declared: Ty, computed: Ty, j: nat, rhs: string, evaluated: Result<Reduced>): (r: VerilogCheck)
    ensures r.line == j + 1 && r.expression == rhs
    ensures r.status == OkStatus <==> r.issues == []
    ensures r.status == ParseErrorStatus <==> evaluated.Err?
    ensures r.computed.Some? <==> evaluated.Ok?
    ensures r.computed.Some? ==> r.computed.value == evaluated.value.value.ty
    ensures r.computed.Some? ==>
              var found := CheckOverflow(r.computed.value, declared) + evaluated.value.issues;
              if r.computed.value == computed then r.issues == found
              else r.issues == found + [VerilogTypeMismatch(computed, r.computed.value)]
  {
    match evaluated
    case Err(e) => VerilogCheck(j + 1, rhs, None, [ParseError(e)], ParseErrorStatus)
    case Ok(v) =>
      var found := CheckOverflow(v.value.ty, declared) + v.issues;
      var issues := found + [VerilogTypeMismatch(computed, v.value.ty)];
      if v.value.ty != computed then VerilogCheck(j + 1, rhs, Some(v.value.ty), issues, StatusOf(issues))
      else VerilogCheck(j + 1, rhs, Some(v.value.ty), found, StatusOf(found))
  }

  /** The report of an annotation at line index `i` declaring `declared` for
      `expression`, with the code line it is paired with. */
  function AnnotationReport(db: Db, i: nat, declared: Ty, expression: string, paired: Option<(nat, Option<(string, string)>)>): (r: Report)
    ensures r.line == i + 1 && r.expression == expression && r.declared == Some(declared)
    ensures StatusAgrees(r)
    ensures r.computed.Some? <==> EvaluateExpression(db.types, expression).Ok?
    ensures r.computed.Some? ==> r.computed.value == EvaluateExpression(db.types, expression).value.value.ty
    ensures r.status == MissingTypeStatus <==>
              var e := EvaluateExpression(db.types, expression);
              e.Err? && e.error.UnknownIdentifier? && e.error.name in db.registers
    ensures r.status == ParseErrorStatus <==>
              var e := EvaluateExpression(db.types, expression);
              e.Err? && !(e.error.UnknownIdentifier? && e.error.name in db.registers)
    ensures r.verilog.Some? ==> paired.Some? && r.verilog.value.line == paired.value.0 + 1
  {
    match EvaluateExpression(db.types, expression)
    case Ok(c) =>
      var issues := CheckOverflow(c.value.ty, declared) + c.issues;
      var verilog := match paired
        case None => None
        case Some((j, assignment)) => VerilogCheckOf(db.types, declared, c.value.ty, j, assignment);
      Report(i + 1, expression, Some(c.value.text), Some(declared), Some(c.value.ty), issues, StatusOf(issues), verilog)
    case Err(e) =>
      if e.UnknownIdentifier? && e.name in db.registers then
        Report(i + 1, expression, None, Some(declared), None, [MissingTypeAnnotation(e.name)], MissingTypeStatus, None)
      else
        Report(i + 1, expression, None, Some(declared), None, [ParseError(e)], ParseErrorStatus, None)
  }

  /** The right side uses `+`, `-`, `*` or `/`. */
  predicate HasArithmetic(rhs: string) {
    '+' in rhs || '-' in rhs || '*' in rhs || '/' in rhs
  }

  /** An assignment at line index `i` with no annotation before it: reported
      only when it evaluates to a fractional type through arithmetic. */
  function UnpairedReport(table: Table, i: nat, assignment: Option<(string, string)>): (r: Option<Report>)
    ensures r.Some? <==>
              assignment.Some? && EvaluateExpression(table, assignment.value.1).Ok?
              && EvaluateExpression(table, assignment.value.1).value.value.ty.frac > 0 && HasArithmetic(assignment.value.1)
    ensures r.Some? ==>
              r.value.line == i + 1 && r.value.status == MissingCommentStatus && r.value.declared.None?
              && r.value.expression == assignment.value.1
              && r.value.issues == EvaluateExpression(table, r.value.expression).value.issues + [MissingComment]
              && StatusAgrees(r.value)
  {
    match assignment
    case None => None
    case Some((_, rhs)) =>
      match EvaluateExpression(table, rhs)
      case Err(_) => None
      case Ok(c) =>
        if c.value.ty.frac > 0 && HasArithmetic(rhs) then
          Some(Report(i + 1, rhs, None, None, Some(c.value.ty), c.issues + [MissingComment], MissingCommentStatus, None))
        else None
  }

  // ---------------------------------------------------------------------
  // The scan

  /** What one line contributes, and whether an annotation was just read. */
  datatype LineOutcome = Continue(report: Option<Report>, last: bool) | Abort(token: string)

  /** One turn of the scan loop at line index `i`; `last` records that the
      previous turn read an annotation, so that this line, when it is not a
      comment, is taken as already checked. */
  function AnalyzeLine(db: Db, views: seq<LineView>, i: nat, last: bool): (r: LineOutcome)
    requires i < |views|
  {
    var v := views[i];
    if v.isComment then
      match v.annotation
      case NoAnnotation => Continue(None, false)
      case BadAnnotationType(token) => Abort(token)
      case Annotation(declared, expression) =>
        Continue(Some(AnnotationReport(db, i, declared, expression, PairedLine(views, i))), true)
    else if last then Continue(None, false)
    else Continue(UnpairedReport(db.types, i, v.assignment), false)
  }

  /** The reports of a scan, before those of a later part. */
  function Append(reports: seq<Report>, rest: Outcome): (r: Outcome) {
    match rest
    case Aborted(_, _) => rest
    case Completed(more) => Completed(reports + more)
  }

  lemma AppendAssociative(a: seq<Report>, b: seq<Report>, rest: Outcome)
    ensures Append(a, Append(b, rest)) == Append(a + b, rest)
  {
    if rest.Completed? {
      assert a + (b + rest.reports) == (a + b) + rest.reports;
    }
  }

  function OptionList(r: Option<Report>): seq<Report> {
    if r.Some? then [r.value] else []
  }

  /** The scan from line index `i` on. */
  function ScanFrom(db: Db, views: seq<LineView>, i: nat, last: bool): (r: Outcome)
    decreases |views| - i
  {
    if i >= |views| then Completed([])
    else
      match AnalyzeLine(db, views, i, last)
      case Abort(token) => Aborted(i + 1, token)
      case Continue(report, next) => Append(OptionList(report), ScanFrom(db, views, i + 1, next))
  }

  /** One turn of the scan that goes on. */
  lemma ScanContinues(db: Db, views: seq<LineView>, i: nat, last: bool, report: Option<Report>, next: bool)
    requires i < |views| && AnalyzeLine(db, views, i, last) == Continue(report, next)
    ensures ScanFrom(db, views, i, last) == Append(OptionList(report), ScanFrom(db, views, i + 1, next))
  {
  }

  /** One turn of the scan that stops it. */
  lemma ScanStops(db: Db, views: seq<LineView>, i: nat, last: bool, token: string)
    requires i < |views| && AnalyzeLine(db, views, i, last) == Abort(token)
    ensures ScanFrom(db, views, i, last) == Aborted(i + 1, token)
  {
  }

  /** `analyze_file` on the lines of a file, with the declarations of the
      same lines read first. */
  function Analysis(lines: seq<string>): Outcome {
    ScanFrom(BuildDb(InitialDb(), lines), Views(lines), 0, false)
  }

  // ---------------------------------------------------------------------
  // Properties of the scan

  /** In every report the status agrees with the issues. */
  lemma {:induction false} ScanStatusAgrees(db: Db, views: seq<LineView>, i: nat, last: bool)
    ensures var o := ScanFrom(db, views, i, last); o.Completed? ==> forall r :: r in o.reports ==> StatusAgrees(r)
    decreases |views| - i
  {
    if i < |views| {
      match AnalyzeLine(db, views, i, last)
      case Abort(_) =>
      case Continue(report, next) =>
        ScanStatusAgrees(db, views, i + 1, next);
    }
  }

  /** Reports come in line order, each for a line of the file after `i`,
      and a paired Verilog line comes after its annotation. */
  predicate InOrder(reports: seq<Report>, i: nat, n: nat) {
    (forall a, b :: 0 <= a < b < |reports| ==> reports[a].line < reports[b].line)
    && (forall a :: 0 <= a < |reports| ==> i < reports[a].line <= n)
    && (forall a :: 0 <= a < |reports| && reports[a].verilog.Some? ==>
          reports[a].line < reports[a].verilog.value.line <= n)
  }

  lemma {:induction false} ScanInOrder(db: Db, views: seq<LineView>, i: nat, last: bool)
    ensures var o := ScanFrom(db, views, i, last); o.Completed? ==> InOrder(o.reports, i, |views|)
    decreases |views| - i
  {
    if i < |views| {
      match AnalyzeLine(db, views, i, last)
      case Abort(_) =>
      case Continue(report, next) =>
        ScanInOrder(db, views, i + 1, next);
        var rest := ScanFrom(db, views, i + 1, next);
        if rest.Completed? {
          PrependInOrder(report, rest.reports, i, |views|);
        }
    }
  }

  lemma PrependInOrder(report: Option<Report>, rest: seq<Report>, i: nat, n: nat)
    requires InOrder(rest, i + 1, n)
    requires report.Some? ==> report.value.line == i + 1 <= n
    requires report.Some? && report.value.verilog.Some? ==> i + 1 < report.value.verilog.value.line <= n
    ensures InOrder(OptionList(report) + rest, i, n)
  {
    if report.Some? {
      assert OptionList(report) == [report.value];
      PrependOne(report.value, rest, i, n);
    } else {
      assert OptionList(report) + rest == rest;
    }
  }

  lemma PrependOne(r: Report, rest: seq<Report>, i: nat, n: nat)
    requires InOrder(rest, i + 1, n)
    requires r.line == i + 1 <= n
    requires r.verilog.Some? ==> i + 1 < r.verilog.value.line <= n
    ensures InOrder([r] + rest, i, n)
  {
    var all := [r] + rest;
    forall a | 0 <= a < |all| ensures i < all[a].line <= n {
      if a > 0 { assert all[a] == rest[a - 1]; }
    }
    forall a, b | 0 <= a < b < |all| ensures all[a].line < all[b].line {
      assert all[b] == rest[b - 1];
      if a > 0 { assert all[a] == rest[a - 1]; }
    }
    forall a | 0 <= a < |all| && all[a].verilog.Some? ensures all[a].line < all[a].verilog.value.line <= n {
      if a > 0 { assert all[a] == rest[a - 1]; }
    }
  }

  /** A scan stops only at a comment whose annotation has an invalid type. */
  lemma {:induction false} AbortsOnBadType(db: Db, views: seq<LineView>, i: nat, last: bool)
    ensures var o := ScanFrom(db, views, i, last);
      o.Aborted? ==> i < o.line <= |views| && views[o.line - 1].annotation == BadAnnotationType(o.token)
    decreases |views| - i
  {
    if i < |views| {
      match AnalyzeLine(db, views, i, last)
      case Abort(_) =>
      case Continue(report, next) =>
        AbortsOnBadType(db, views, i + 1, next);
    }
  }

  /** When every register has a type, no report is MISSING_TYPE: an unknown
      identifier is never a register. */
  lemma {:induction false} NoMissingType(db: Db, views: seq<LineView>, i: nat, last: bool)
    requires Valid(db)
    ensures var o := ScanFrom(db, views, i, last);
      o.Completed? ==> forall r :: r in o.reports ==> r.status != MissingTypeStatus
    decreases |views| - i
  {
    if i < |views| {
      match AnalyzeLine(db, views, i, last)
      case Abort(_) =>
      case Continue(report, next) =>
        NoMissingType(db, views, i + 1, next);
    }
  }

  /** The scan of a file never reports MISSING_TYPE. */
  lemma AnalysisNeverMissingType(lines: seq<string>)
    ensures var o := Analysis(lines);
      o.Completed? ==> forall r :: r in o.reports ==> r.status != MissingTypeStatus
  {
    BuildDbValid(InitialDb(), lines);
    NoMissingType(BuildDb(InitialDb(), lines), Views(lines), 0, false);
  }

  /** The line right after an annotation, when it is not a comment, is not
      itself checked for a missing annotation. */
  lemma AnnotatedLineSkipped(db: Db, views: seq<LineView>, i: nat, last: bool)
    requires i + 1 < |views| && views[i].isComment && views[i].annotation.Annotation?
    requires !views[i + 1].isComment
    ensures AnalyzeLine(db, views, i, last).Continue? && AnalyzeLine(db, views, i, last).last
    ensures AnalyzeLine(db, views, i + 1, true) == Continue(None, false)
  {
  }

  // ---------------------------------------------------------------------
  // The checker object

  /** The checker: the types of known names and the set of registers, filled
      from declarations and then used by the scan. */
  class FixedPointChecker {
    var knownTypes: map<string, Ty>
    var knownRegisters: set<string>

    function Database(): (db: Db)
      reads this
      ensures db.types == knownTypes && db.registers == knownRegisters
    {
      Db(knownTypes, knownRegisters)
    }

    /** A checker that knows only the built-in constant. */
    constructor ()
      ensures Database() == InitialDb()
    {
      knownTypes := map["PITCH_REF_C2" := Ty(false, 7, 0)];
      knownRegisters := {};
    }

    /** `build_type_database`: the declarations of `lines`, in order. */
    method BuildTypeDatabase(lines: seq<string>)
      modifies this
      ensures Database() == BuildDb(old(Database()), lines)
    {
      ghost var start := Database();
      for k := 0 to |lines|
        invariant Database() == BuildDb(start, lines[..k])
      {
        RecordLine(start, lines, k);
      }
      assert lines[..|lines|] == lines;
    }

    /** One turn of the declaration loop: the database after `lines[..k]`
        becomes the one after `lines[..k + 1]`. */
    method RecordLine(ghost start: Db, lines: seq<string>, k: nat)
      requires k < |lines| && Database() == BuildDb(start, lines[..k])
      modifies this
      ensures Database() == BuildDb(start, lines[..k + 1])
    {
      BuildDbStep(start, lines, k);
      RecordDeclaration(lines[k]);
    }

    /** One line of `build_type_database`: a register declaration records the
        register (and its `_8x` alias); a localparam declaration records a
        type. */
    method RecordDeclaration(line: string)
      modifies this
      ensures Database() == DeclStep(old(Database()), line)
    {
      var reg := ParseReg(line);
      if reg.Some? {
        RecordRegister(reg.value);
      } else {
        var lp := ParseLocalparam(line);
        if lp.Some? {
          RecordLocalparam(lp.value);
        }
      }
    }

    /** A localparam declaration: the name gets the declared type. */
    method RecordLocalparam(d: Decl)
      modifies this
      ensures Database() == AddLocalparam(old(Database()), d)
    {
      knownTypes := knownTypes[d.name := d.ty];
    }

    /** A register declaration: the name, and the name without `_8x`, become
        registers of the declared type. */
    method RecordRegister(d: Decl)
      modifies this
      ensures Database() == AddRegister(old(Database()), d)
    {
      knownRegisters := knownRegisters + {d.name};
      knownTypes := knownTypes[d.name := d.ty];
      if EndsWith(d.name, "_8x") {
        var base := d.name[..|d.name| - 3];
        knownRegisters := knownRegisters + {base};
        knownTypes := knownTypes[base := d.ty];
      }
    }

    /** `analyze_file`: read the declarations, then walk the lines once. */
    method AnalyzeFile(lines: seq<string>) returns (out: Outcome)
      modifies this
      ensures Database() == BuildDb(old(Database()), lines)
      ensures out == ScanFrom(Database(), Views(lines), 0, false)
      ensures old(Database()) == InitialDb() ==> out == Analysis(lines)
    {
      BuildTypeDatabase(lines);
      var db := Database();
      var views := Views(lines);
      out := Scan(db, views);
    }
  }

  /** The loop of `analyze_file` over the views of the lines. */
  method Scan(db: Db, views: seq<LineView>) returns (out: Outcome)
    ensures out == ScanFrom(db, views, 0, false)
  {
    ghost var whole := ScanFrom(db, views, 0, false);
    var results: seq<Report> := [];
    var i := 0;
    var last := false;
    while i < |views|
      invariant 0 <= i <= |views|
      invariant whole == Append(results, ScanFrom(db, views, i, last))
    {
      var step := AnalyzeLineAt(db, views, i, last);
      match step {
        case Abort(token) =>
          ScanStops(db, views, i, last, token);
          return Aborted(i + 1, token);
        case Continue(report, next) =>
          ScanContinues(db, views, i, last, report, next);
          AppendAssociative(results, OptionList(report), ScanFrom(db, views, i + 1, next));
          results := results + OptionList(report);
          last := next;
      }
      i := i + 1;
    }
    assert results + [] == results;
    return Completed(results);
  }

  /** One turn of the scan loop: a plain comment clears the pairing flag, a
      malformed annotation stops the scan, an annotation is checked against
      the next code line, and a code line is either the one just checked or
      an assignment that may lack an annotation. */
  method AnalyzeLineAt(db: Db, views: seq<LineView>, i: nat, last: bool) returns (r: LineOutcome)
    requires i < |views|
    ensures r == AnalyzeLine(db, views, i, last)
  {
    var v := views[i];
    if v.isComment {
      match v.annotation
      case NoAnnotation =>
        r := Continue(None, false);
      case BadAnnotationType(token) =>
        r := Abort(token);
      case Annotation(declared, expression) =>
        var next := NextVerilogLine(views, i + 1);
        var paired := if next.Some? then Some((next.value, views[next.value].strippedAssignment)) else None;
        r := Continue(Some(AnnotationReport(db, i, declared, expression, paired)), true);
    } else if last {
      r := Continue(None, false);
    } else {
      r := Continue(UnpairedReport(db.types, i, v.assignment), false);
    }
  }

  /** The search for the line an annotation is paired with. */
  method NextVerilogLine(views: seq<LineView>, from: nat) returns (r: Option<nat>)
    ensures r == NextCodeLine(views, from)
  {
    var j := from;
    while j < |views|
      invariant from <= j
      invariant NextCodeLine(views, j) == NextCodeLine(views, from)
    {
      if views[j].isCode {
        return Some(j);
      }
      j := j + 1;
    }
    return None;
  }
}
