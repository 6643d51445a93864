/**
 The earlier checker (main_parser.py): the same walk and per-declaration
 rules as the current one, but with no header offset, no block frames
 (so no locality rule), no grade, and a casing test that compares a name
 with its lower-cased form.
 */
module Legacy {
  import opened Ast
  import Text
  import Rules
  import LineTable

  datatype State = State(
    errors: seq<Message>,
    inGlobal: bool,          // outside every function definition
    inParam: bool,           // inside a function definition's parameter list
    lines: LineTable.Table)  // for rule XII.A

  /** A fresh checker. */
  function Start(): State {
    State([], true, false, [])
  }

  /** The earlier casing test: the name equals its lower-cased form. */
  predicate LowercaseOk(x: string) {
    Text.Lower(x) == x
  }

  /**
   The checks on a named declaration: record it against its line unless it
   is a parameter, then apply the four per-declaration rules.
   */
  function CheckDecl(x: string, line: int, typ: Node, initialised: bool, st: State): (r: State)
    ensures r.inGlobal == st.inGlobal && r.inParam == st.inParam
    ensures st.errors <= r.errors
  {
    var st1 := if !st.inParam then st.(lines := LineTable.Add(st.lines, line, x)) else st;
    st1.(errors := st1.errors + Rules.DeclReport(x, line, LowercaseOk(x), st.inGlobal, st.inParam, initialised, typ))
  }

  /** What the check of a declaration changes, field by field. */
  lemma CheckDeclFields(x: string, line: int, typ: Node, initialised: bool, st: State)
    ensures CheckDecl(x, line, typ, initialised, st).lines
              == (if st.inParam then st.lines else LineTable.Add(st.lines, line, x))
    ensures CheckDecl(x, line, typ, initialised, st).errors
              == st.errors + Rules.DeclReport(x, line, LowercaseOk(x), st.inGlobal, st.inParam, initialised, typ)
  {
  }

  /**
   The meaning of the check of a declaration: each rule reports iff its
   condition holds, casing judged against the lower-cased name, and the
   name is recorded at its line unless it is a parameter.
   */
  lemma CheckDeclRules(x: string, line: int, typ: Node, initialised: bool, st: State, r: State)
    requires r == CheckDecl(x, line, typ, initialised, st)
    ensures var ms := r.errors[|st.errors|..];
      NotLowercase(line, x) in ms <==> Text.Lower(x) != x
    ensures var ms := r.errors[|st.errors|..];
      NoGlobalPrefix(line, x) in ms <==> st.inGlobal && !st.inParam && !Text.StartsWith(x, Rules.GlobalPrefix)
    ensures var ms := r.errors[|st.errors|..];
      Uninitialised(line, x) in ms <==> !st.inParam && !initialised
    ensures var ms := r.errors[|st.errors|..];
      VariableLengthArray(line) in ms <==> IsVla(typ)
    ensures forall k :: LineTable.NamesAt(r.lines, k)
                        == LineTable.NamesAt(st.lines, k) + (if k == line && !st.inParam then [x] else [])
  {
    CheckDeclFields(x, line, typ, initialised, st);
    var ms := Rules.DeclReport(x, line, LowercaseOk(x), st.inGlobal, st.inParam, initialised, typ);
    Rules.DeclReportRules(x, line, LowercaseOk(x), st.inGlobal, st.inParam, initialised, typ);
    assert r.errors[|st.errors|..] == ms;
    if !st.inParam {
      LineTable.AddRecords(st.lines, line, x);
    }
  }

  /** The walk: declarations and function definitions are treated specially,
      every other node only has its children walked. */
  function Visit(n: Node, st: State): (r: State)
    ensures r.inGlobal == st.inGlobal && r.inParam == st.inParam
    ensures st.errors <= r.errors
    decreases n, 2
  {
    match n
    case Decl(_, _, _, _, _) => VisitDecl(n, st)
    case ID(_) => st
    case Constant => st
    case Compound(items) => VisitAll(items, st)
    case FuncDef(_, _) => VisitFuncDef(n, st)
    case ArrayDecl(_, _) => VisitArrayDecl(n, st)
    case FuncDecl(_, _) => VisitFuncDecl(n, st)
    case Other(kids) => VisitAll(kids, st)
  }

  /** A declaration without a name is skipped together with its children;
      a named one is checked, then its children are walked. */
  function VisitDecl(n: Node, st: State): (r: State)
    requires n.Decl?
    ensures r.inGlobal == st.inGlobal && r.inParam == st.inParam
    ensures st.errors <= r.errors
    decreases n, 1
  {
    if n.name.None? then st
    else VisitDeclKids(n, CheckDecl(n.name.value, n.line, n.typ, n.init.Some?, st))
  }

  function VisitDeclKids(n: Node, st: State): (r: State)
    requires n.Decl?
    ensures r.inGlobal == st.inGlobal && r.inParam == st.inParam
    ensures st.errors <= r.errors
    decreases n, 0
  {
    var st1 := Visit(n.typ, st);
    var st2 := if n.init.Some? then Visit(n.init.value, st1) else st1;
    if n.bitsize.Some? then Visit(n.bitsize.value, st2) else st2
  }

  /** As in the current checker: leave file scope, walk the parameter list
      (if any) as parameters, then the body, and restore both flags. */
  function VisitFuncDef(n: Node, st: State): (r: State)
    requires n.FuncDef?
    ensures r.inGlobal == st.inGlobal && r.inParam == st.inParam
    ensures st.errors <= r.errors
    decreases n, 1
  {
    var st1 := st.(inGlobal := false);
    var st2 := if n.decl.Decl? && n.decl.typ.FuncDecl? && n.decl.typ.args.Some?
               then Visit(n.decl.typ.args.value, st1.(inParam := true)).(inParam := st1.inParam)
               else st1;
    VisitAll(n.body, st2).(inGlobal := st.inGlobal)
  }

  function VisitArrayDecl(n: Node, st: State): (r: State)
    requires n.ArrayDecl?
    ensures r.inGlobal == st.inGlobal && r.inParam == st.inParam
    ensures st.errors <= r.errors
    decreases n, 1
  {
    var st1 := Visit(n.elem, st);
    if n.dim.Some? then Visit(n.dim.value, st1) else st1
  }

  function VisitFuncDecl(n: Node, st: State): (r: State)
    requires n.FuncDecl?
    ensures r.inGlobal == st.inGlobal && r.inParam == st.inParam
    ensures st.errors <= r.errors
    decreases n, 1
  {
    var st1 := if n.args.Some? then Visit(n.args.value, st) else st;
    Visit(n.ret, st1)
  }

  function VisitAll(ns: seq<Node>, st: State): (r: State)
    ensures r.inGlobal == st.inGlobal && r.inParam == st.inParam
    ensures st.errors <= r.errors
    decreases ns, 0
  {
    if ns == [] then st else VisitAll(ns[1..], Visit(ns[0], st))
  }

  /** The final pass for rule XII.A. */
  function Finalize(st: State): (r: State)
    ensures r.lines == st.lines && r.inGlobal == st.inGlobal && r.inParam == st.inParam
    ensures st.errors <= r.errors
  {
    st.(errors := st.errors + LineTable.Report(st.lines))
  }

  /**
   The final pass appends the line table's report, and every message it
   appends is a one-per-line message for a recorded line.
   */
  lemma FinalizeAppendsReport(st: State, r: State)
    requires r == Finalize(st)
    ensures r.errors == st.errors + LineTable.Report(st.lines)
    ensures forall m :: m in r.errors[|st.errors|..] ==> m.SharedLine? && m.line in LineTable.Lines(st.lines)
  {
    LineTable.ReportAppended(st.errors, st.lines);
  }

  /**
   When the table holds one entry per line, the final pass reports on line
   `l` every name recorded there (repeats included) in recording order if
   there are several, and nothing otherwise.
   */
  lemma FinalizeReportsSharedLines(st: State, r: State)
    requires r == Finalize(st)
    ensures LineTable.UniqueLines(st.lines) ==>
              forall l :: LineTable.OnLine(r.errors[|st.errors|..], l)
                          == (if |LineTable.NamesAt(st.lines, l)| > 1
                              then LineTable.SharedAll(l, LineTable.NamesAt(st.lines, l)) else [])
  {
    LineTable.ReportAppended(st.errors, st.lines);
  }

  /** One check of a parsed translation unit. */
  function CheckUnit(root: Node): (r: State)
    ensures r.inGlobal && !r.inParam
  {
    Finalize(Visit(root, Start()))
  }
}
