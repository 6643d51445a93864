/**
 The current checker (py_src/full_stack_parser.py): one walk over the
 syntax tree of header + source, threading the traversal flags, the
 scope stack, the line table and the grade, followed by the final
 one-per-line pass; plus the macro-name casing check and the driver that
 runs both.

 Declarations whose line lies in the header (line <= hdr) are not
 checked, and every reported line is relative to the source file.
 */
module FullStack {
  import opened Ast
  import Text
  import Grader
  import Rules
  import LineTable
  import opened Scope

  datatype State = State(
    errors: seq<Message>,
    inGlobal: bool,          // outside every function definition
    inParam: bool,           // inside a function definition's parameter list
    lines: LineTable.Table,  // for rule XII.A
    stack: seq<Frame>,       // one frame per open block, innermost last
    grade: Grader.Grade)

  /** A fresh checker reporting into `grade`. */
  function Start(grade: Grader.Grade): State {
    State([], true, false, [], [], grade)
  }

  /** A frame is open whenever a local declaration may have to be recorded. */
  predicate Fits(st: State) {
    !st.inGlobal && !st.inParam ==> |st.stack| > 0
  }

  function Top(stack: seq<Frame>): Frame
    requires |stack| > 0
  {
    stack[|stack| - 1]
  }

  /** Every frame but the innermost. */
  function Outer(stack: seq<Frame>): seq<Frame> {
    if |stack| == 0 then [] else stack[..|stack| - 1]
  }

  function SetTop(stack: seq<Frame>, f: Frame): seq<Frame>
    requires |stack| > 0
  {
    stack[..|stack| - 1] + [f]
  }

  /** Appends messages and reports each one's rule to the grade, in order. */
  function Emit(st: State, ms: seq<Message>): State {
    st.(errors := st.errors + ms, grade := Grader.UpdateAll(st.grade, RuleKeys(ms)))
  }

  /**
   The checks on a named declaration of the source file: record it in the
   innermost frame when it is a local, in the line table unless it is a
   parameter, then apply the four per-declaration rules.
   */
  function CheckDecl(x: string, line: int, typ: Node, initialised: bool, hdr: nat, st: State): (r: State)
    requires line > hdr && Fits(st)
    ensures r.inGlobal == st.inGlobal && r.inParam == st.inParam && |r.stack| == |st.stack|
  {
    var l := line - hdr;
    Emit(RecordLine(x, l, DeclareLocal(x, l, st)),
         Rules.DeclReport(x, l, Text.IsLower(x), st.inGlobal, st.inParam, initialised, typ))
  }

  /** What the check of a source-file declaration changes, field by field. */
  lemma CheckDeclFields(x: string, line: int, typ: Node, initialised: bool, hdr: nat, st: State)
    requires line > hdr && Fits(st)
    ensures Outer(CheckDecl(x, line, typ, initialised, hdr, st).stack) == Outer(st.stack)
    ensures !st.inGlobal && !st.inParam ==>
              Top(CheckDecl(x, line, typ, initialised, hdr, st).stack) == Declare(Top(st.stack), x, line - hdr)
    ensures st.inGlobal || st.inParam ==> CheckDecl(x, line, typ, initialised, hdr, st).stack == st.stack
    ensures CheckDecl(x, line, typ, initialised, hdr, st).lines
              == (if st.inParam then st.lines else LineTable.Add(st.lines, line - hdr, x))
    ensures CheckDecl(x, line, typ, initialised, hdr, st).errors
              == st.errors + Rules.DeclReport(x, line - hdr, Text.IsLower(x), st.inGlobal, st.inParam, initialised, typ)
  {
  }

  /**
   The messages the check of a source-file declaration appends, at source
   line `l`: each of the four rules reports iff its condition holds.
   */
  lemma CheckDeclReports(x: string, line: int, typ: Node, initialised: bool, hdr: nat, st: State, r: State)
    requires line > hdr && Fits(st) && r == CheckDecl(x, line, typ, initialised, hdr, st)
    ensures st.errors <= r.errors
    ensures var ms, l := r.errors[|st.errors|..], line - hdr;
      NotLowercase(l, x) in ms <==> !Text.IsLower(x)
    ensures var ms, l := r.errors[|st.errors|..], line - hdr;
      NoGlobalPrefix(l, x) in ms <==> st.inGlobal && !st.inParam && !Text.StartsWith(x, Rules.GlobalPrefix)
    ensures var ms, l := r.errors[|st.errors|..], line - hdr;
      Uninitialised(l, x) in ms <==> !st.inParam && !initialised
    ensures var ms, l := r.errors[|st.errors|..], line - hdr;
      VariableLengthArray(l) in ms <==> IsVla(typ)
  {
    var l := line - hdr;
    CheckDeclFields(x, line, typ, initialised, hdr, st);
    Rules.DeclReportRules(x, l, Text.IsLower(x), st.inGlobal, st.inParam, initialised, typ);
    assert r.errors[|st.errors|..] == Rules.DeclReport(x, l, Text.IsLower(x), st.inGlobal, st.inParam, initialised, typ);
  }

  /**
   What the check of a source-file declaration records: the name joins the
   list of source line `l` unless it is a parameter, and a local joins the
   innermost frame as a setdefault does, leaving the earlier entries and
   the outer frames alone.
   */
  lemma CheckDeclEffect(x: string, line: int, typ: Node, initialised: bool, hdr: nat, st: State, r: State)
    requires line > hdr && Fits(st) && r == CheckDecl(x, line, typ, initialised, hdr, st)
    ensures forall k :: LineTable.NamesAt(r.lines, k)
                        == LineTable.NamesAt(st.lines, k) + (if k == line - hdr && !st.inParam then [x] else [])
    ensures Outer(r.stack) == Outer(st.stack)
    ensures st.inGlobal || st.inParam ==> r.stack == st.stack
    ensures !st.inGlobal && !st.inParam ==>
              forall y :: Has(Top(r.stack), y) <==> Has(Top(st.stack), y) || y == x
    ensures !st.inGlobal && !st.inParam ==>
              |Top(r.stack)| == |Top(st.stack)| + (if Has(Top(st.stack), x) then 0 else 1)
              && Top(r.stack)[..|Top(st.stack)|] == Top(st.stack)
    ensures !st.inGlobal && !st.inParam && !Has(Top(st.stack), x) ==>
              Top(r.stack)[|Top(st.stack)|] == Entry(x, line - hdr, false)
  {
    var l := line - hdr;
    CheckDeclFields(x, line, typ, initialised, hdr, st);
    assert forall k :: LineTable.NamesAt(r.lines, k)
                       == LineTable.NamesAt(st.lines, k) + (if k == l && !st.inParam then [x] else []) by {
      if !st.inParam {
        LineTable.AddRecords(st.lines, l, x);
      }
    }
    if !st.inGlobal && !st.inParam {
      var f, g := Top(st.stack), Top(r.stack);
      assert g == Declare(f, x, l);
      assert (forall y :: Has(g, y) <==> Has(f, y) || y == x)
             && |g| == |f| + (if Has(f, x) then 0 else 1) && g[..|f|] == f
             && (!Has(f, x) ==> g[|f|] == Entry(x, l, false)) by {
        DeclareSetdefault(f, x, l);
      }
    }
  }

  /** Outside globals and parameter lists, the name enters the innermost frame. */
  function DeclareLocal(x: string, l: int, st: State): State
    requires Fits(st)
  {
    if !st.inGlobal && !st.inParam
    then st.(stack := SetTop(st.stack, Declare(Top(st.stack), x, l)))
    else st
  }

  /** Outside parameter lists, the name is recorded against its line. */
  function RecordLine(x: string, l: int, st: State): State
  {
    if !st.inParam then st.(lines := LineTable.Add(st.lines, l, x)) else st
  }

  /**
   A reference marks the name in the innermost frame only: no outer frame
   is searched, and with no open block nothing happens.
   */
  function VisitId(x: string, st: State): (r: State)
    ensures r.errors == st.errors && r.lines == st.lines && r.grade == st.grade
    ensures r.inGlobal == st.inGlobal && r.inParam == st.inParam
    ensures |r.stack| == |st.stack| && Outer(r.stack) == Outer(st.stack)
    ensures |st.stack| == 0 ==> r == st
    ensures |st.stack| > 0 ==>
              |Top(r.stack)| == |Top(st.stack)|
              && forall i :: 0 <= i < |Top(st.stack)| ==>
                   var e, e' := Top(st.stack)[i], Top(r.stack)[i];
                   e'.name == e.name && e'.line == e.line
                   && (e'.used <==> e.used || (x != "" && e.name == x))
  {
    if |st.stack| > 0 && x != "" && Has(Top(st.stack), x)
    then st.(stack := SetTop(st.stack, Mark(Top(st.stack), x)))
    else st
  }

  /** The walk: one case per node kind the checker treats specially. */
  function Visit(n: Node, hdr: nat, st: State): (r: State)
    requires Fits(st)
    ensures r.inGlobal == st.inGlobal && r.inParam == st.inParam
    ensures |r.stack| == |st.stack| && Outer(r.stack) == Outer(st.stack)
    ensures st.errors <= r.errors
    decreases n, 2
  {
    match n
    case Decl(_, _, _, _, _) => VisitDecl(n, hdr, st)
    case ID(x) => VisitId(x, st)
    case Constant => st
    case Compound(items) => VisitCompound(items, hdr, st)
    case FuncDef(_, _) => VisitFuncDef(n, hdr, st)
    case ArrayDecl(_, _) => VisitArrayDecl(n, hdr, st)
    case FuncDecl(_, _) => VisitFuncDecl(n, hdr, st)
    case Other(kids) => VisitAll(kids, hdr, st)
  }

  /**
   A declaration without a name is skipped together with its children. A
   named one is checked when it lies in the source file, and its children
   are walked in either case, after the check.
   */
  function VisitDecl(n: Node, hdr: nat, st: State): (r: State)
    requires n.Decl? && Fits(st)
    ensures r.inGlobal == st.inGlobal && r.inParam == st.inParam
    ensures |r.stack| == |st.stack| && Outer(r.stack) == Outer(st.stack)
    ensures st.errors <= r.errors
    decreases n, 1
  {
    if n.name.None? then st
    else if n.line > hdr then
      CheckDeclFields(n.name.value, n.line, n.typ, n.init.Some?, hdr, st);
      VisitDeclKids(n, hdr, CheckDecl(n.name.value, n.line, n.typ, n.init.Some?, hdr, st))
    else VisitDeclKids(n, hdr, st)
  }

  /** The children of a declaration: its type, its initialiser, then its bit-field width. */
  function VisitDeclKids(n: Node, hdr: nat, st: State): (r: State)
    requires n.Decl? && Fits(st)
    ensures r.inGlobal == st.inGlobal && r.inParam == st.inParam
    ensures |r.stack| == |st.stack| && Outer(r.stack) == Outer(st.stack)
    ensures st.errors <= r.errors
    decreases n, 0
  {
    var st1 := Visit(n.typ, hdr, st);
    var st2 := if n.init.Some? then Visit(n.init.value, hdr, st1) else st1;
    if n.bitsize.Some? then Visit(n.bitsize.value, hdr, st2) else st2
  }

  /**
   A function definition leaves file scope, walks its parameter list (if
   it has one) as parameters, then its body, and restores both flags. Its
   own declaration is not walked, so its name is never checked.
   */
  function VisitFuncDef(n: Node, hdr: nat, st: State): (r: State)
    requires n.FuncDef? && Fits(st)
    ensures r.inGlobal == st.inGlobal && r.inParam == st.inParam
    ensures |r.stack| == |st.stack| && Outer(r.stack) == Outer(st.stack)
    ensures st.errors <= r.errors
    decreases n, 1
  {
    var st1 := st.(inGlobal := false);
    var st2 := if n.decl.Decl? && n.decl.typ.FuncDecl? && n.decl.typ.args.Some?
               then Visit(n.decl.typ.args.value, hdr, st1.(inParam := true)).(inParam := st1.inParam)
               else st1;
    VisitCompound(n.body, hdr, st2).(inGlobal := st.inGlobal)
  }

  function VisitArrayDecl(n: Node, hdr: nat, st: State): (r: State)
    requires n.ArrayDecl? && Fits(st)
    ensures r.inGlobal == st.inGlobal && r.inParam == st.inParam
    ensures |r.stack| == |st.stack| && Outer(r.stack) == Outer(st.stack)
    ensures st.errors <= r.errors
    decreases n, 1
  {
    var st1 := Visit(n.elem, hdr, st);
    if n.dim.Some? then Visit(n.dim.value, hdr, st1) else st1
  }

  /** A function type met outside a definition (a prototype): its
      parameters are walked with the flags as they are. */
  function VisitFuncDecl(n: Node, hdr: nat, st: State): (r: State)
    requires n.FuncDecl? && Fits(st)
    ensures r.inGlobal == st.inGlobal && r.inParam == st.inParam
    ensures |r.stack| == |st.stack| && Outer(r.stack) == Outer(st.stack)
    ensures st.errors <= r.errors
    decreases n, 1
  {
    var st1 := if n.args.Some? then Visit(n.args.value, hdr, st) else st;
    Visit(n.ret, hdr, st1)
  }

  function VisitAll(ns: seq<Node>, hdr: nat, st: State): (r: State)
    requires Fits(st)
    ensures r.inGlobal == st.inGlobal && r.inParam == st.inParam
    ensures |r.stack| == |st.stack| && Outer(r.stack) == Outer(st.stack)
    ensures st.errors <= r.errors
    decreases ns, 0
  {
    if ns == [] then st else VisitAll(ns[1..], hdr, Visit(ns[0], hdr, st))
  }

  /**
   A block opens a frame, visits its items, then reports every name of
   that frame never marked and closes the frame: the stack is left as it
   was found.
   */
  function VisitCompound(items: seq<Node>, hdr: nat, st: State): (r: State)
    ensures r.inGlobal == st.inGlobal && r.inParam == st.inParam
    ensures r.stack == st.stack
    ensures st.errors <= r.errors
    decreases items, 1
  {
    var st1 := st.(stack := st.stack + [[]]);
    var st2 := VisitAll(items, hdr, st1);
    assert Outer(st2.stack) == st.stack;
    Emit(st2.(stack := Outer(st2.stack)), UnusedReport(Top(st2.stack)))
  }

  /** The final pass for rule XII.A. */
  function Finalize(st: State): (r: State)
    ensures r.lines == st.lines && r.stack == st.stack
    ensures r.inGlobal == st.inGlobal && r.inParam == st.inParam
    ensures st.errors <= r.errors
  {
    Emit(st, LineTable.Report(st.lines))
  }

  /**
   The final pass appends the line table's report, and every message it
   appends is a one-per-line message for a recorded line.
   */
  lemma FinalizeAppendsReport(st: State, r: State)
    requires r == Finalize(st)
    ensures r.errors == st.errors + LineTable.Report(st.lines)
    ensures forall m :: m in r.errors[|st.errors|..] ==> m.SharedLine? && m.line in LineTable.Lines(st.lines)
  {
    LineTable.ReportAppended(st.errors, st.lines);
  }

  /**
   When the table holds one entry per line, the final pass reports on line
   `l` every name recorded there (repeats included) in recording order if
   there are several, and nothing otherwise.
   */
  lemma FinalizeReportsSharedLines(st: State, r: State)
    requires r == Finalize(st)
    ensures LineTable.UniqueLines(st.lines) ==>
              forall l :: LineTable.OnLine(r.errors[|st.errors|..], l)
                          == (if |LineTable.NamesAt(st.lines, l)| > 1
                              then LineTable.SharedAll(l, LineTable.NamesAt(st.lines, l)) else [])
  {
    LineTable.ReportAppended(st.errors, st.lines);
  }

  /** One check of a parsed translation unit reporting into `grade`. */
  function CheckUnit(root: Node, hdr: nat, grade: Grader.Grade): (r: State)
    ensures r.stack == [] && r.inGlobal && !r.inParam
  {
    Finalize(Visit(root, hdr, Start(grade)))
  }

  /** The predefined macros the casing check never flags. */
  const BuiltinMacros: set<string> := {"__PCPP__", "__DATE__", "__TIME__", "__FILE__"}

  /** The macro names flagged by rule I.C, in table order: no length test. */
  function FlaggedMacros(names: seq<string>): (r: seq<string>)
    ensures |r| <= |names|
    ensures forall x :: x in r <==> x in names && x !in BuiltinMacros && !Text.IsUpper(x)
  {
    if names == [] then []
    else
      (if names[0] !in BuiltinMacros && !Text.IsUpper(names[0]) then [names[0]] else [])
      + FlaggedMacros(names[1..])
  }

  function Repeat(key: string, k: nat): (r: seq<string>)
    ensures |r| == k && forall i :: 0 <= i < k ==> r[i] == key
  {
    if k == 0 then [] else Repeat(key, k - 1) + [key]
  }

  datatype MacroOutcome = MacroOutcome(grade: Grader.Grade, passTest: bool)

  /** Rule I.C over the macro table: one report per flagged name. */
  function MacroCheck(names: seq<string>, grade: Grader.Grade): MacroOutcome {
    var flagged := FlaggedMacros(names);
    MacroOutcome(Grader.UpdateAll(grade, Repeat("I.C", |flagged|)), flagged == [])
  }

  /**
   Status 0: checked; status 1: the parser failed and nothing was checked.
   No other status occurs. `passTest` is not returned by the driver: when
   the checker reports nothing, it only decides whether a pass is announced.
   */
  datatype Outcome = Outcome(status: int, errors: seq<Message>, grade: Grader.Grade, passTest: bool)

  /**
   The driver: the macro check first, then, if the parser produced a tree,
   the checker over it. A parse failure keeps the macro findings.
   */
  function WholeCheck(macros: seq<string>, ast: Option<Node>, hdr: nat, grade: Grader.Grade): (r: Outcome)
    ensures r.status == 0 <==> ast.Some?
    ensures r.status == 1 <==> ast.None?
    ensures ast.None? ==> r.errors == [] && r.grade == MacroCheck(macros, grade).grade
    ensures r.passTest <==> FlaggedMacros(macros) == []
  {
    var mc := MacroCheck(macros, grade);
    match ast
    case None => Outcome(1, [], mc.grade, mc.passTest)
    case Some(root) =>
      var st := CheckUnit(root, hdr, mc.grade);
      Outcome(0, st.errors, st.grade, mc.passTest)
  }
}
