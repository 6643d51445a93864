/**
 Properties of the earlier checker: the line table it keeps, the
 quietness of parameter lists, and its relation to the current checker:
 with no header and names on which the two casing tests agree, the
 current checker reports exactly what the earlier one reports, plus its
 locality messages.
 */
module LegacyProofs {
  import opened Ast
  import Text
  import Rules
  import LineTable
  import Scope
  import opened Legacy
  import FullStack
  import Grader

  // ---------------------------------------------------------------------
  // The line table

  lemma {:induction false} VisitLines(n: Node, st: State)
    requires LineTable.UniqueLines(st.lines)
    ensures LineTable.UniqueLines(Visit(n, st).lines)
    decreases n, 2
  {
    match n
    case Decl(_, _, _, _, _) => DeclLines(n, st);
    case ID(_) =>
    case Constant =>
    case Compound(items) => VisitAllLines(items, st);
    case FuncDef(_, _) => FuncDefLines(n, st);
    case ArrayDecl(elem, dim) =>
      VisitLines(elem, st);
      if dim.Some? { VisitLines(dim.value, Visit(elem, st)); }
    case FuncDecl(args, ret) =>
      if args.Some? { VisitLines(args.value, st); }
      VisitLines(ret, if args.Some? then Visit(args.value, st) else st);
    case Other(kids) => VisitAllLines(kids, st);
  }

  lemma {:induction false} DeclLines(n: Node, st: State)
    requires n.Decl? && LineTable.UniqueLines(st.lines)
    ensures LineTable.UniqueLines(VisitDecl(n, st).lines)
    decreases n, 1
  {
    if n.name.Some? {
      var st1 := CheckDecl(n.name.value, n.line, n.typ, n.init.Some?, st);
      LineTable.AddRecords(st.lines, n.line, n.name.value);
      DeclKidsLines(n, st1);
    }
  }

  lemma {:induction false} DeclKidsLines(n: Node, st: State)
    requires n.Decl? && LineTable.UniqueLines(st.lines)
    ensures LineTable.UniqueLines(VisitDeclKids(n, st).lines)
    decreases n, 0
  {
    var st1 := Visit(n.typ, st);
    var st2 := if n.init.Some? then Visit(n.init.value, st1) else st1;
    VisitLines(n.typ, st);
    if n.init.Some? { VisitLines(n.init.value, st1); }
    if n.bitsize.Some? { VisitLines(n.bitsize.value, st2); }
  }

  lemma {:induction false} FuncDefLines(n: Node, st: State)
    requires n.FuncDef? && LineTable.UniqueLines(st.lines)
    ensures LineTable.UniqueLines(VisitFuncDef(n, st).lines)
    decreases n, 1
  {
    var st1 := st.(inGlobal := false);
    var hasArgs := n.decl.Decl? && n.decl.typ.FuncDecl? && n.decl.typ.args.Some?;
    if hasArgs { VisitLines(n.decl.typ.args.value, st1.(inParam := true)); }
    var st2 := if hasArgs
               then Visit(n.decl.typ.args.value, st1.(inParam := true)).(inParam := st1.inParam)
               else st1;
    VisitAllLines(n.body, st2);
  }

  lemma {:induction false} VisitAllLines(ns: seq<Node>, st: State)
    requires LineTable.UniqueLines(st.lines)
    ensures LineTable.UniqueLines(VisitAll(ns, st).lines)
    decreases ns, 0
  {
    if ns != [] {
      VisitLines(ns[0], st);
      VisitAllLines(ns[1..], Visit(ns[0], st));
    }
  }

  /**
   The final pass of the earlier checker reports, for each line, one
   message per name recorded there when it holds more than one, and
   nothing otherwise.
   */
  lemma SharedLinesVerdict(root: Node, l: int)
    ensures var st := Visit(root, Start());
            && CheckUnit(root).errors == st.errors + LineTable.Report(st.lines)
            && LineTable.OnLine(LineTable.Report(st.lines), l)
               == (if |LineTable.NamesAt(st.lines, l)| > 1
                   then LineTable.SharedAll(l, LineTable.NamesAt(st.lines, l)) else [])
  {
    VisitLines(root, Start());
    LineTable.ReportPerLine(Visit(root, Start()).lines, l);
  }

  // ---------------------------------------------------------------------
  // Parameter lists

  predicate OnlyNamingOrVla(ms: seq<Message>) {
    forall i :: 0 <= i < |ms| ==> ms[i].NotLowercase? || ms[i].VariableLengthArray?
  }

  /** Walking from `st` to `r` added only casing and array messages and
      recorded no line. */
  predicate Quiet(st: State, r: State) {
    && st.errors <= r.errors
    && OnlyNamingOrVla(r.errors[|st.errors|..])
    && r.lines == st.lines
  }

  lemma QuietChain(a: State, b: State, c: State)
    requires Quiet(a, b) && Quiet(b, c)
    ensures Quiet(a, c)
  {
    var d1 := b.errors[|a.errors|..];
    var d2 := c.errors[|b.errors|..];
    assert c.errors[|a.errors|..] == d1 + d2;
  }

  /** Inside a parameter list, only the casing and array rules can fire,
      and nothing is recorded for the one-per-line rule. */
  lemma {:induction false} ParamsQuiet(n: Node, st: State)
    requires st.inParam
    ensures Quiet(st, Visit(n, st))
    decreases n, 2
  {
    match n
    case Decl(_, _, _, _, _) => DeclQuiet(n, st);
    case ID(_) =>
    case Constant =>
    case Compound(items) => ParamsQuietAll(items, st);
    case FuncDef(_, _) => FuncDefQuiet(n, st);
    case ArrayDecl(elem, dim) =>
      ParamsQuiet(elem, st);
      var st1 := Visit(elem, st);
      if dim.Some? {
        ParamsQuiet(dim.value, st1);
        QuietChain(st, st1, Visit(dim.value, st1));
      }
    case FuncDecl(args, ret) =>
      var st1 := if args.Some? then Visit(args.value, st) else st;
      if args.Some? { ParamsQuiet(args.value, st); }
      ParamsQuiet(ret, st1);
      QuietChain(st, st1, Visit(ret, st1));
    case Other(kids) => ParamsQuietAll(kids, st);
  }

  lemma CheckDeclQuiet(x: string, line: int, typ: Node, initialised: bool, st: State)
    requires st.inParam
    ensures Quiet(st, CheckDecl(x, line, typ, initialised, st))
  {
    Rules.ParameterOnlyNamingAndVla(x, line, LowercaseOk(x), st.inGlobal, initialised, typ);
    var ms := Rules.DeclReport(x, line, LowercaseOk(x), st.inGlobal, true, initialised, typ);
    var r := CheckDecl(x, line, typ, initialised, st);
    assert r.errors[|st.errors|..] == ms;
    forall i | 0 <= i < |ms| ensures ms[i].NotLowercase? || ms[i].VariableLengthArray? {
      assert ms[i] in ms;
    }
  }

  lemma {:induction false} DeclQuiet(n: Node, st: State)
    requires n.Decl? && st.inParam
    ensures Quiet(st, VisitDecl(n, st))
    decreases n, 1
  {
    if n.name.Some? {
      var st1 := CheckDecl(n.name.value, n.line, n.typ, n.init.Some?, st);
      CheckDeclQuiet(n.name.value, n.line, n.typ, n.init.Some?, st);
      DeclKidsQuiet(n, st1);
      QuietChain(st, st1, VisitDeclKids(n, st1));
    }
  }

  lemma {:induction false} DeclKidsQuiet(n: Node, st: State)
    requires n.Decl? && st.inParam
    ensures Quiet(st, VisitDeclKids(n, st))
    decreases n, 0
  {
    ParamsQuiet(n.typ, st);
    var st1 := Visit(n.typ, st);
    var st2 := if n.init.Some? then Visit(n.init.value, st1) else st1;
    if n.init.Some? {
      ParamsQuiet(n.init.value, st1);
      QuietChain(st, st1, st2);
    }
    if n.bitsize.Some? {
      ParamsQuiet(n.bitsize.value, st2);
      QuietChain(st, st2, Visit(n.bitsize.value, st2));
    }
  }

  lemma {:induction false} FuncDefQuiet(n: Node, st: State)
    requires n.FuncDef? && st.inParam
    ensures Quiet(st, VisitFuncDef(n, st))
    decreases n, 1
  {
    var st1 := st.(inGlobal := false);
    var hasArgs := n.decl.Decl? && n.decl.typ.FuncDecl? && n.decl.typ.args.Some?;
    if hasArgs { ParamsQuiet(n.decl.typ.args.value, st1.(inParam := true)); }
    var st2 := if hasArgs
               then Visit(n.decl.typ.args.value, st1.(inParam := true)).(inParam := st1.inParam)
               else st1;
    assert Quiet(st, st2);
    ParamsQuietAll(n.body, st2);
    QuietChain(st, st2, VisitAll(n.body, st2));
  }

  lemma {:induction false} ParamsQuietAll(ns: seq<Node>, st: State)
    requires st.inParam
    ensures Quiet(st, VisitAll(ns, st))
    decreases ns, 0
  {
    if ns != [] {
      ParamsQuiet(ns[0], st);
      var st1 := Visit(ns[0], st);
      ParamsQuietAll(ns[1..], st1);
      QuietChain(st, st1, VisitAll(ns[1..], st1));
    }
  }

  /**
   A function definition at file scope walks its own parameter list as
   parameters: with an empty body, the definition records no line and
   emits only casing and array messages.
   */
  lemma FileScopeParamsQuiet(d: Node, st: State)
    requires st.inGlobal && !st.inParam && d.Decl? && d.typ.FuncDecl? && d.typ.args.Some?
    ensures Quiet(st, VisitFuncDef(FuncDef(d, []), st))
  {
    var st1 := st.(inGlobal := false, inParam := true);
    ParamsQuiet(d.typ.args.value, st1);
  }

  // ---------------------------------------------------------------------
  // The earlier checker against the current one

  /** The messages other than locality messages, in order. */
  function NonLocal(ms: seq<Message>): (r: seq<Message>)
    ensures forall m :: m in r <==> m in ms && !m.NotLocal?
  {
    if ms == [] then []
    else (if ms[0].NotLocal? then [] else [ms[0]]) + NonLocal(ms[1..])
  }

  lemma {:induction false} NonLocalAppend(a: seq<Message>, b: seq<Message>)
    ensures NonLocal(a + b) == NonLocal(a) + NonLocal(b)
  {
    if a == [] {
      assert a + b == b;
    } else {
      assert (a + b)[1..] == a[1..] + b;
      NonLocalAppend(a[1..], b);
    }
  }

  lemma {:induction false} NonLocalKeepsOthers(ms: seq<Message>)
    requires forall i :: 0 <= i < |ms| ==> !ms[i].NotLocal?
    ensures NonLocal(ms) == ms
  {
    if ms != [] { NonLocalKeepsOthers(ms[1..]); }
  }

  lemma {:induction false} NonLocalDropsUnused(f: Scope.Frame)
    ensures NonLocal(Scope.UnusedReport(f)) == []
  {
    if f != [] {
      NonLocalDropsUnused(f[1..]);
      NonLocalAppend(if f[0].used then [] else [NotLocal(f[0].line, f[0].name)], Scope.UnusedReport(f[1..]));
    }
  }

  /** The two casing tests give the same verdict on `x`. */
  predicate CaseAgrees(x: string) {
    Text.IsLower(x) <==> LowercaseOk(x)
  }

  /** Every named declaration in the tree lies on a line from 1 on and has
      a name on which the two casing tests agree. */
  predicate Named(n: Node)
    decreases n, 1
  {
    match n
    case Decl(name, line, typ, init, bitsize) =>
      (name.Some? ==> line >= 1 && CaseAgrees(name.value))
      && Named(typ) && (init.Some? ==> Named(init.value)) && (bitsize.Some? ==> Named(bitsize.value))
    case ID(_) => true
    case Constant => true
    case Compound(items) => NamedAll(items)
    case FuncDef(decl, body) => Named(decl) && NamedAll(body)
    case ArrayDecl(elem, dim) => Named(elem) && (dim.Some? ==> Named(dim.value))
    case FuncDecl(args, ret) => (args.Some? ==> Named(args.value)) && Named(ret)
    case Other(kids) => NamedAll(kids)
  }

  predicate NamedAll(ns: seq<Node>)
    decreases ns, 0
  {
    forall i :: 0 <= i < |ns| ==> Named(ns[i])
  }

  /** The earlier checker's state `l` shadows the current checker's `s`. */
  predicate Agrees(l: State, s: FullStack.State) {
    && l.errors == NonLocal(s.errors)
    && l.lines == s.lines
    && l.inGlobal == s.inGlobal
    && l.inParam == s.inParam
  }

  lemma DeclReportNotLocal(x: string, line: int, ok: bool, g: bool, p: bool, init: bool, typ: Node)
    ensures NonLocal(Rules.DeclReport(x, line, ok, g, p, init, typ)) == Rules.DeclReport(x, line, ok, g, p, init, typ)
  {
    var ms := Rules.DeclReport(x, line, ok, g, p, init, typ);
    forall i | 0 <= i < |ms| ensures !ms[i].NotLocal? { assert ms[i] in ms; }
    NonLocalKeepsOthers(ms);
  }

  lemma CheckDeclAgrees(x: string, line: int, typ: Node, initialised: bool, l: State, s: FullStack.State)
    requires Agrees(l, s) && FullStack.Fits(s) && line >= 1 && CaseAgrees(x)
    ensures Agrees(CheckDecl(x, line, typ, initialised, l), FullStack.CheckDecl(x, line, typ, initialised, 0, s))
  {
    FullStack.CheckDeclFields(x, line, typ, initialised, 0, s);
    CheckDeclErrorsAgree(x, line, typ, initialised, l, s);
  }

  lemma CheckDeclErrorsAgree(x: string, line: int, typ: Node, initialised: bool, l: State, s: FullStack.State)
    requires Agrees(l, s) && FullStack.Fits(s) && line >= 1 && CaseAgrees(x)
    ensures CheckDecl(x, line, typ, initialised, l).errors == NonLocal(FullStack.CheckDecl(x, line, typ, initialised, 0, s).errors)
  {
    FullStack.CheckDeclFields(x, line, typ, initialised, 0, s);
    var ms := Rules.DeclReport(x, line, LowercaseOk(x), l.inGlobal, l.inParam, initialised, typ);
    assert ms == Rules.DeclReport(x, line - 0, Text.IsLower(x), s.inGlobal, s.inParam, initialised, typ);
    DeclReportNotLocal(x, line, LowercaseOk(x), l.inGlobal, l.inParam, initialised, typ);
    NonLocalAppend(s.errors, ms);
  }

  lemma {:induction false} VisitAgrees(n: Node, l: State, s: FullStack.State)
    requires Agrees(l, s) && FullStack.Fits(s) && Named(n)
    ensures Agrees(Visit(n, l), FullStack.Visit(n, 0, s))
    decreases n, 2
  {
    match n
    case Decl(_, _, _, _, _) => DeclAgrees(n, l, s);
    case ID(_) =>
    case Constant =>
    case Compound(items) => CompoundAgrees(items, l, s);
    case FuncDef(_, _) => FuncDefAgrees(n, l, s);
    case ArrayDecl(elem, dim) =>
      VisitAgrees(elem, l, s);
      if dim.Some? { VisitAgrees(dim.value, Visit(elem, l), FullStack.Visit(elem, 0, s)); }
    case FuncDecl(args, ret) =>
      if args.Some? { VisitAgrees(args.value, l, s); }
      VisitAgrees(ret, if args.Some? then Visit(args.value, l) else l,
                  if args.Some? then FullStack.Visit(args.value, 0, s) else s);
    case Other(kids) => VisitAllAgrees(kids, l, s);
  }

  lemma {:induction false} DeclAgrees(n: Node, l: State, s: FullStack.State)
    requires n.Decl? && Agrees(l, s) && FullStack.Fits(s) && Named(n)
    ensures Agrees(VisitDecl(n, l), FullStack.VisitDecl(n, 0, s))
    decreases n, 1
  {
    if n.name.Some? {
      CheckDeclAgrees(n.name.value, n.line, n.typ, n.init.Some?, l, s);
      DeclKidsAgrees(n, CheckDecl(n.name.value, n.line, n.typ, n.init.Some?, l),
                     FullStack.CheckDecl(n.name.value, n.line, n.typ, n.init.Some?, 0, s));
    }
  }

  lemma {:induction false} DeclKidsAgrees(n: Node, l: State, s: FullStack.State)
    requires n.Decl? && Agrees(l, s) && FullStack.Fits(s) && Named(n)
    ensures Agrees(VisitDeclKids(n, l), FullStack.VisitDeclKids(n, 0, s))
    decreases n, 0
  {
    var l1, s1 := Visit(n.typ, l), FullStack.Visit(n.typ, 0, s);
    var l2 := if n.init.Some? then Visit(n.init.value, l1) else l1;
    var s2 := if n.init.Some? then FullStack.Visit(n.init.value, 0, s1) else s1;
    VisitAgrees(n.typ, l, s);
    if n.init.Some? { VisitAgrees(n.init.value, l1, s1); }
    if n.bitsize.Some? { VisitAgrees(n.bitsize.value, l2, s2); }
  }

  lemma {:induction false} FuncDefAgrees(n: Node, l: State, s: FullStack.State)
    requires n.FuncDef? && Agrees(l, s) && FullStack.Fits(s) && Named(n)
    ensures Agrees(VisitFuncDef(n, l), FullStack.VisitFuncDef(n, 0, s))
    decreases n, 1
  {
    var l1 := l.(inGlobal := false);
    var s1 := s.(inGlobal := false);
    var hasArgs := n.decl.Decl? && n.decl.typ.FuncDecl? && n.decl.typ.args.Some?;
    if hasArgs {
      assert Named(n.decl.typ) && Named(n.decl.typ.args.value);
      VisitAgrees(n.decl.typ.args.value, l1.(inParam := true), s1.(inParam := true));
    }
    var l2 := if hasArgs
              then Visit(n.decl.typ.args.value, l1.(inParam := true)).(inParam := l1.inParam)
              else l1;
    var s2 := if hasArgs
              then FullStack.Visit(n.decl.typ.args.value, 0, s1.(inParam := true)).(inParam := s1.inParam)
              else s1;
    CompoundAgrees(n.body, l2, s2);
  }

  lemma {:induction false} VisitAllAgrees(ns: seq<Node>, l: State, s: FullStack.State)
    requires Agrees(l, s) && FullStack.Fits(s) && NamedAll(ns)
    ensures Agrees(VisitAll(ns, l), FullStack.VisitAll(ns, 0, s))
    decreases ns, 0
  {
    if ns != [] {
      assert Named(ns[0]);
      VisitAgrees(ns[0], l, s);
      assert NamedAll(ns[1..]) by {
        forall i | 0 <= i < |ns[1..]| ensures Named(ns[1..][i]) { assert ns[1..][i] == ns[i + 1]; }
      }
      VisitAllAgrees(ns[1..], Visit(ns[0], l), FullStack.Visit(ns[0], 0, s));
    }
  }

  /** A block: the earlier checker walks its items; the current one also
      opens and closes a frame, whose report holds locality messages only. */
  lemma {:induction false} CompoundAgrees(items: seq<Node>, l: State, s: FullStack.State)
    requires Agrees(l, s) && NamedAll(items)
    ensures Agrees(VisitAll(items, l), FullStack.VisitCompound(items, 0, s))
    decreases items, 1
  {
    var s1 := s.(stack := s.stack + [[]]);
    VisitAllAgrees(items, l, s1);
    var s2 := FullStack.VisitAll(items, 0, s1);
    NonLocalDropsUnused(FullStack.Top(s2.stack));
    NonLocalAppend(s2.errors, Scope.UnusedReport(FullStack.Top(s2.stack)));
  }

  /**
   With no header and names on which both casing tests agree, the earlier
   checker's messages are exactly the current checker's messages with the
   locality messages taken out, in the same order, and both build the same
   line table.
   */
  lemma CurrentExtendsEarlier(root: Node, grade: Grader.Grade)
    requires Named(root)
    ensures CheckUnit(root).errors == NonLocal(FullStack.CheckUnit(root, 0, grade).errors)
    ensures CheckUnit(root).lines == FullStack.CheckUnit(root, 0, grade).lines
  {
    var s := FullStack.Visit(root, 0, FullStack.Start(grade));
    VisitAgrees(root, Start(), FullStack.Start(grade));
    var ms := LineTable.Report(s.lines);
    LineTable.ReportOnlyShared(s.lines);
    forall i | 0 <= i < |ms| ensures !ms[i].NotLocal? { assert ms[i] in ms; }
    NonLocalKeepsOthers(ms);
    NonLocalAppend(s.errors, ms);
  }
}
