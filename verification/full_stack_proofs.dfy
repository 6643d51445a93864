/**
 Properties of the current checker that relate several of its steps:
 what a walk does to the innermost frame, the locality verdict of a
 block, the invariant every walk keeps (ledger in step with the
 messages, every reported line at least 1), the quietness of parameter
 lists, and the driver's ledger.
 */
module FullStackProofs {
  import opened Ast
  import Text
  import Grader
  import Rules
  import LineTable
  import opened Scope
  import opened FullStack

  /**
   The events a walk of `n` sends to the innermost frame, computed from the
   tree and the flags alone. A declaration is recorded before its children
   are walked; a nested block works on a frame of its own and contributes
   nothing; a function definition contributes only its parameter list.
   */
  function Events(n: Node, hdr: nat, inGlobal: bool, inParam: bool): seq<Event>
    decreases n, 1
  {
    match n
    case Decl(name, line, typ, init, bitsize) =>
      if name.None? then []
      else
        (if line > hdr && !inGlobal && !inParam then [Declared(name.value, line - hdr)] else [])
        + DeclKidEvents(n, hdr, inGlobal, inParam)
    case ID(x) => [Used(x)]
    case Constant => []
    case Compound(_) => []
    case FuncDef(decl, _) =>
      if decl.Decl? && decl.typ.FuncDecl? && decl.typ.args.Some?
      then Events(decl.typ.args.value, hdr, false, true)
      else []
    case ArrayDecl(elem, dim) =>
      Events(elem, hdr, inGlobal, inParam)
      + (if dim.Some? then Events(dim.value, hdr, inGlobal, inParam) else [])
    case FuncDecl(args, ret) =>
      (if args.Some? then Events(args.value, hdr, inGlobal, inParam) else [])
      + Events(ret, hdr, inGlobal, inParam)
    case Other(kids) => EventsAll(kids, hdr, inGlobal, inParam)
  }

  function DeclKidEvents(n: Node, hdr: nat, inGlobal: bool, inParam: bool): seq<Event>
    requires n.Decl?
    decreases n, 0
  {
    Events(n.typ, hdr, inGlobal, inParam)
    + (if n.init.Some? then Events(n.init.value, hdr, inGlobal, inParam) else [])
    + (if n.bitsize.Some? then Events(n.bitsize.value, hdr, inGlobal, inParam) else [])
  }

  function EventsAll(ns: seq<Node>, hdr: nat, inGlobal: bool, inParam: bool): seq<Event>
    decreases ns
  {
    if ns == [] then [] else Events(ns[0], hdr, inGlobal, inParam) + EventsAll(ns[1..], hdr, inGlobal, inParam)
  }

  /** A walk changes the innermost frame exactly as replaying its events does. */
  lemma {:induction false} VisitTop(n: Node, hdr: nat, st: State)
    requires Fits(st) && |st.stack| > 0
    ensures Top(Visit(n, hdr, st).stack) == Replay(Top(st.stack), Events(n, hdr, st.inGlobal, st.inParam))
    decreases n, 3
  {
    match n
    case Decl(_, _, _, _, _) => DeclTop(n, hdr, st);
    case ID(x) =>
      var top := Top(st.stack);
      assert Replay(top, [Used(x)]) == Step(Replay(top, []), Used(x));
    case Constant =>
    case Compound(_) =>
    case FuncDef(decl, body) =>
      if decl.Decl? && decl.typ.FuncDecl? && decl.typ.args.Some? {
        VisitTop(decl.typ.args.value, hdr, st.(inGlobal := false).(inParam := true));
      }
    case ArrayDecl(_, _) => ArrayDeclTop(n, hdr, st);
    case FuncDecl(_, _) => FuncDeclTop(n, hdr, st);
    case Other(kids) => VisitAllTop(kids, hdr, st);
  }

  lemma CheckDeclTop(x: string, line: int, typ: Node, initialised: bool, hdr: nat, st: State)
    requires line > hdr && Fits(st) && |st.stack| > 0
    ensures Top(CheckDecl(x, line, typ, initialised, hdr, st).stack)
            == Replay(Top(st.stack), if !st.inGlobal && !st.inParam then [Declared(x, line - hdr)] else [])
  {
    var top := Top(st.stack);
    assert Replay(top, [Declared(x, line - hdr)]) == Step(Replay(top, []), Declared(x, line - hdr));
  }

  lemma {:induction false} DeclTop(n: Node, hdr: nat, st: State)
    requires n.Decl? && Fits(st) && |st.stack| > 0
    ensures Top(VisitDecl(n, hdr, st).stack) == Replay(Top(st.stack), Events(n, hdr, st.inGlobal, st.inParam))
    decreases n, 2
  {
    if n.name.Some? {
      if n.line > hdr {
        CheckedDeclTop(n, hdr, st);
      } else {
        DeclKidsTop(n, hdr, st);
        var ks := DeclKidEvents(n, hdr, st.inGlobal, st.inParam);
        assert [] + ks == ks;
      }
    }
  }

  /** A declaration of the source file: the recording, then its children. */
  lemma {:induction false} CheckedDeclTop(n: Node, hdr: nat, st: State)
    requires n.Decl? && n.name.Some? && n.line > hdr && Fits(st) && |st.stack| > 0
    ensures Top(VisitDecl(n, hdr, st).stack) == Replay(Top(st.stack), Events(n, hdr, st.inGlobal, st.inParam))
    decreases n, 1
  {
    var top := Top(st.stack);
    var e1: seq<Event> := if !st.inGlobal && !st.inParam then [Declared(n.name.value, n.line - hdr)] else [];
    var st1 := CheckDecl(n.name.value, n.line, n.typ, n.init.Some?, hdr, st);
    var kids := DeclKidEvents(n, hdr, st.inGlobal, st.inParam);
    calc {
      Top(VisitDecl(n, hdr, st).stack);
      { CheckedDeclVisit(n, hdr, st); }
      Top(VisitDeclKids(n, hdr, st1).stack);
      { DeclKidsTop(n, hdr, st1); }
      Replay(Top(st1.stack), kids);
      { CheckDeclTop(n.name.value, n.line, n.typ, n.init.Some?, hdr, st); }
      Replay(Replay(top, e1), kids);
      { ReplayAppend(top, e1, kids); }
      Replay(top, e1 + kids);
      { DeclEvents(n, hdr, st.inGlobal, st.inParam); }
      Replay(top, Events(n, hdr, st.inGlobal, st.inParam));
    }
  }

  lemma DeclEvents(n: Node, hdr: nat, inGlobal: bool, inParam: bool)
    requires n.Decl? && n.name.Some?
    ensures Events(n, hdr, inGlobal, inParam)
            == (if n.line > hdr && !inGlobal && !inParam then [Declared(n.name.value, n.line - hdr)] else [])
               + DeclKidEvents(n, hdr, inGlobal, inParam)
  {
  }

  /** A named declaration of the source file is checked, then its children walked. */
  lemma CheckedDeclVisit(n: Node, hdr: nat, st: State)
    requires n.Decl? && n.name.Some? && n.line > hdr && Fits(st)
    ensures VisitDecl(n, hdr, st) == VisitDeclKids(n, hdr, CheckDecl(n.name.value, n.line, n.typ, n.init.Some?, hdr, st))
  {
  }

  lemma {:induction false} DeclKidsTop(n: Node, hdr: nat, st: State)
    requires n.Decl? && Fits(st) && |st.stack| > 0
    ensures Top(VisitDeclKids(n, hdr, st).stack) == Replay(Top(st.stack), DeclKidEvents(n, hdr, st.inGlobal, st.inParam))
    decreases n, 0
  {
    var top := Top(st.stack);
    var st1 := Visit(n.typ, hdr, st);
    var st2 := if n.init.Some? then Visit(n.init.value, hdr, st1) else st1;
    var e1 := Events(n.typ, hdr, st.inGlobal, st.inParam);
    var e2 := if n.init.Some? then Events(n.init.value, hdr, st.inGlobal, st.inParam) else [];
    var e3 := if n.bitsize.Some? then Events(n.bitsize.value, hdr, st.inGlobal, st.inParam) else [];
    VisitTop(n.typ, hdr, st);
    if n.init.Some? {
      VisitTop(n.init.value, hdr, st1);
      ReplayAppend(top, e1, e2);
    } else {
      assert e1 + e2 == e1;
    }
    if n.bitsize.Some? {
      VisitTop(n.bitsize.value, hdr, st2);
      ReplayAppend(top, e1 + e2, e3);
    } else {
      assert e1 + e2 + e3 == e1 + e2;
    }
  }

  lemma {:induction false} ArrayDeclTop(n: Node, hdr: nat, st: State)
    requires n.ArrayDecl? && Fits(st) && |st.stack| > 0
    ensures Top(VisitArrayDecl(n, hdr, st).stack) == Replay(Top(st.stack), Events(n, hdr, st.inGlobal, st.inParam))
    decreases n, 0
  {
    VisitTop(n.elem, hdr, st);
    var e1 := Events(n.elem, hdr, st.inGlobal, st.inParam);
    if n.dim.Some? {
      VisitTop(n.dim.value, hdr, Visit(n.elem, hdr, st));
      ReplayAppend(Top(st.stack), e1, Events(n.dim.value, hdr, st.inGlobal, st.inParam));
    } else {
      assert e1 + [] == e1;
    }
  }

  lemma {:induction false} FuncDeclTop(n: Node, hdr: nat, st: State)
    requires n.FuncDecl? && Fits(st) && |st.stack| > 0
    ensures Top(VisitFuncDecl(n, hdr, st).stack) == Replay(Top(st.stack), Events(n, hdr, st.inGlobal, st.inParam))
    decreases n, 0
  {
    var st1 := if n.args.Some? then Visit(n.args.value, hdr, st) else st;
    var e1 := if n.args.Some? then Events(n.args.value, hdr, st.inGlobal, st.inParam) else [];
    if n.args.Some? { VisitTop(n.args.value, hdr, st); }
    VisitTop(n.ret, hdr, st1);
    ReplayAppend(Top(st.stack), e1, Events(n.ret, hdr, st.inGlobal, st.inParam));
  }

  lemma {:induction false} VisitAllTop(ns: seq<Node>, hdr: nat, st: State)
    requires Fits(st) && |st.stack| > 0
    ensures Top(VisitAll(ns, hdr, st).stack) == Replay(Top(st.stack), EventsAll(ns, hdr, st.inGlobal, st.inParam))
    decreases ns
  {
    if ns != [] {
      VisitTop(ns[0], hdr, st);
      var st1 := Visit(ns[0], hdr, st);
      VisitAllTop(ns[1..], hdr, st1);
      ReplayAppend(Top(st.stack), Events(ns[0], hdr, st.inGlobal, st.inParam),
                   EventsAll(ns[1..], hdr, st.inGlobal, st.inParam));
    }
  }

  /**
   XII.C for one block: closing it appends exactly the locality report of
   the frame its own events build, so `x` is reported at line `l` iff `l`
   is the line of the first declaration of `x` directly in the block and
   no reference to `x` followed it at the block's own level. A reference
   made only inside a nested block does not count, and nor does one in a
   sibling block: there is no search of outer frames.
   */
  lemma BlockVerdict(items: seq<Node>, hdr: nat, st: State, x: string, l: int)
    ensures var evs := EventsAll(items, hdr, st.inGlobal, st.inParam);
            var close := UnusedReport(Replay([], evs));
            var r := VisitCompound(items, hdr, st);
            && |close| <= |r.errors|
            && r.errors[|r.errors| - |close|..] == close
            && (NotLocal(l, x) in close <==> FirstDeclaredAt(evs, x, l) && !(x != "" && UsedAfterDeclared(evs, x)))
            && forall p, q :: 0 <= p < q < |close| ==> close[p] != close[q]
  {
    var st1 := st.(stack := st.stack + [[]]);
    VisitAllTop(items, hdr, st1);
    LocalityVerdict(EventsAll(items, hdr, st.inGlobal, st.inParam), x, l);
  }

  predicate TableOk(t: LineTable.Table) {
    LineTable.UniqueLines(t) && forall i :: 0 <= i < |t| ==> t[i].line >= 1
  }

  predicate FrameOk(f: Frame) {
    forall j :: 0 <= j < |f| ==> f[j].line >= 1
  }

  predicate StackOk(s: seq<Frame>) {
    forall i :: 0 <= i < |s| ==> FrameOk(s[i])
  }

  predicate MessagesOk(ms: seq<Message>) {
    forall i :: 0 <= i < |ms| ==> ms[i].line >= 1
  }

  /** What every walk keeps: the ledger is the fold of the messages' rules,
      and every line the checker holds or reports is at least 1. */
  predicate Sound(st: State, g0: Grader.Grade) {
    && TableOk(st.lines)
    && StackOk(st.stack)
    && MessagesOk(st.errors)
    && st.grade == Grader.UpdateAll(g0, RuleKeys(st.errors))
  }

  lemma EmitSound(st: State, ms: seq<Message>, g0: Grader.Grade)
    requires Sound(st, g0) && MessagesOk(ms)
    ensures Sound(Emit(st, ms), g0)
  {
    RuleKeysAppend(st.errors, ms);
    Grader.UpdateAllAppend(g0, RuleKeys(st.errors), RuleKeys(ms));
    MessagesOkAppend(st.errors, ms);
  }

  lemma MessagesOkAppend(a: seq<Message>, b: seq<Message>)
    requires MessagesOk(a) && MessagesOk(b)
    ensures MessagesOk(a + b)
  {
    forall i | 0 <= i < |a + b| ensures (a + b)[i].line >= 1 {
      if i < |a| { assert (a + b)[i] == a[i]; } else { assert (a + b)[i] == b[i - |a|]; }
    }
  }

  lemma SetTopOk(s: seq<Frame>, f: Frame)
    requires StackOk(s) && |s| > 0 && FrameOk(f)
    ensures StackOk(SetTop(s, f))
  {
    var s' := SetTop(s, f);
    assert forall i :: 0 <= i < |s| - 1 ==> s'[i] == s[i];
  }

  lemma AddOk(t: LineTable.Table, l: int, x: string)
    requires TableOk(t) && l >= 1
    ensures TableOk(LineTable.Add(t, l, x))
  {
    var t' := LineTable.Add(t, l, x);
    LineTable.AddRecords(t, l, x);
    forall i | 0 <= i < |t'| ensures t'[i].line >= 1 {
      assert t'[i].line == LineTable.Lines(t')[i];
      if i < |t| { assert LineTable.Lines(t')[i] == LineTable.Lines(t)[i]; }
    }
  }

  lemma DeclReportOk(x: string, l: int, ok: bool, g: bool, p: bool, init: bool, typ: Node)
    requires l >= 1
    ensures MessagesOk(Rules.DeclReport(x, l, ok, g, p, init, typ))
  {
    var ms := Rules.DeclReport(x, l, ok, g, p, init, typ);
    forall i | 0 <= i < |ms| ensures ms[i].line >= 1 {
      assert ms[i] in ms;
    }
  }

  lemma DeclareLocalSound(x: string, l: int, st: State, g0: Grader.Grade)
    requires Fits(st) && Sound(st, g0) && l >= 1
    ensures Sound(DeclareLocal(x, l, st), g0)
  {
    if !st.inGlobal && !st.inParam {
      var f := Top(st.stack);
      var f' := Declare(f, x, l);
      assert FrameOk(f);
      assert forall j :: 0 <= j < |f| ==> f'[j] == f[j];
      SetTopOk(st.stack, f');
    }
  }

  lemma RecordLineSound(x: string, l: int, st: State, g0: Grader.Grade)
    requires Sound(st, g0) && l >= 1
    ensures Sound(RecordLine(x, l, st), g0)
  {
    if !st.inParam { AddOk(st.lines, l, x); }
  }

  /** The three steps of a declaration's check. */
  lemma CheckDeclIs(x: string, line: int, typ: Node, initialised: bool, hdr: nat, st: State)
    requires line > hdr && Fits(st)
    ensures CheckDecl(x, line, typ, initialised, hdr, st)
            == Emit(RecordLine(x, line - hdr, DeclareLocal(x, line - hdr, st)),
                    Rules.DeclReport(x, line - hdr, Text.IsLower(x), st.inGlobal, st.inParam, initialised, typ))
  {
  }

  lemma CheckDeclSound(x: string, line: int, typ: Node, initialised: bool, hdr: nat, st: State, g0: Grader.Grade)
    requires line > hdr && Fits(st) && Sound(st, g0)
    ensures Sound(CheckDecl(x, line, typ, initialised, hdr, st), g0)
  {
    CheckDeclIs(x, line, typ, initialised, hdr, st);
    DeclStepsSound(x, line - hdr, typ, initialised, st, g0);
  }

  lemma DeclStepsSound(x: string, l: int, typ: Node, initialised: bool, st: State, g0: Grader.Grade)
    requires l >= 1 && Fits(st) && Sound(st, g0)
    ensures Sound(Emit(RecordLine(x, l, DeclareLocal(x, l, st)),
                       Rules.DeclReport(x, l, Text.IsLower(x), st.inGlobal, st.inParam, initialised, typ)), g0)
  {
    var st1 := DeclareLocal(x, l, st);
    var st2 := RecordLine(x, l, st1);
    var ms := Rules.DeclReport(x, l, Text.IsLower(x), st.inGlobal, st.inParam, initialised, typ);
    DeclareLocalSound(x, l, st, g0);
    RecordLineSound(x, l, st1, g0);
    DeclReportOk(x, l, Text.IsLower(x), st.inGlobal, st.inParam, initialised, typ);
    EmitSound(st2, ms, g0);
  }

  lemma {:induction false} VisitSound(n: Node, hdr: nat, st: State, g0: Grader.Grade)
    requires Fits(st) && Sound(st, g0)
    ensures Sound(Visit(n, hdr, st), g0)
    decreases n, 2
  {
    match n
    case Decl(_, _, _, _, _) => DeclSound(n, hdr, st, g0);
    case ID(x) =>
      if |st.stack| > 0 && x != "" && Has(Top(st.stack), x) {
        assert FrameOk(Top(st.stack));
        SetTopOk(st.stack, Mark(Top(st.stack), x));
      }
    case Constant =>
    case Compound(items) => VisitCompoundSound(items, hdr, st, g0);
    case FuncDef(_, _) => FuncDefSound(n, hdr, st, g0);
    case ArrayDecl(elem, dim) =>
      VisitSound(elem, hdr, st, g0);
      if dim.Some? { VisitSound(dim.value, hdr, Visit(elem, hdr, st), g0); }
    case FuncDecl(args, ret) =>
      if args.Some? { VisitSound(args.value, hdr, st, g0); }
      VisitSound(ret, hdr, if args.Some? then Visit(args.value, hdr, st) else st, g0);
    case Other(kids) => VisitAllSound(kids, hdr, st, g0);
  }

  lemma {:induction false} DeclSound(n: Node, hdr: nat, st: State, g0: Grader.Grade)
    requires n.Decl? && Fits(st) && Sound(st, g0)
    ensures Sound(VisitDecl(n, hdr, st), g0)
    decreases n, 1
  {
    if n.name.Some? {
      if n.line > hdr {
        var st1 := CheckDecl(n.name.value, n.line, n.typ, n.init.Some?, hdr, st);
        CheckedDeclVisit(n, hdr, st);
        CheckDeclSound(n.name.value, n.line, n.typ, n.init.Some?, hdr, st, g0);
        DeclKidsSound(n, hdr, st1, g0);
      } else {
        DeclKidsSound(n, hdr, st, g0);
      }
    }
  }

  lemma {:induction false} DeclKidsSound(n: Node, hdr: nat, st: State, g0: Grader.Grade)
    requires n.Decl? && Fits(st) && Sound(st, g0)
    ensures Sound(VisitDeclKids(n, hdr, st), g0)
    decreases n, 0
  {
    var st1 := Visit(n.typ, hdr, st);
    var st2 := if n.init.Some? then Visit(n.init.value, hdr, st1) else st1;
    VisitSound(n.typ, hdr, st, g0);
    if n.init.Some? { VisitSound(n.init.value, hdr, st1, g0); }
    if n.bitsize.Some? { VisitSound(n.bitsize.value, hdr, st2, g0); }
  }

  lemma {:induction false} FuncDefSound(n: Node, hdr: nat, st: State, g0: Grader.Grade)
    requires n.FuncDef? && Fits(st) && Sound(st, g0)
    ensures Sound(VisitFuncDef(n, hdr, st), g0)
    decreases n, 1
  {
    var st1 := st.(inGlobal := false);
    var hasArgs := n.decl.Decl? && n.decl.typ.FuncDecl? && n.decl.typ.args.Some?;
    if hasArgs { VisitSound(n.decl.typ.args.value, hdr, st1.(inParam := true), g0); }
    var st2 := if hasArgs
               then Visit(n.decl.typ.args.value, hdr, st1.(inParam := true)).(inParam := st1.inParam)
               else st1;
    VisitCompoundSound(n.body, hdr, st2, g0);
  }

  lemma {:induction false} VisitAllSound(ns: seq<Node>, hdr: nat, st: State, g0: Grader.Grade)
    requires Fits(st) && Sound(st, g0)
    ensures Sound(VisitAll(ns, hdr, st), g0)
    decreases ns, 0
  {
    if ns != [] {
      VisitSound(ns[0], hdr, st, g0);
      VisitAllSound(ns[1..], hdr, Visit(ns[0], hdr, st), g0);
    }
  }

  lemma UnusedReportOk(f: Frame)
    requires FrameOk(f)
    ensures MessagesOk(UnusedReport(f))
  {
    UnusedReportExact(f);
    var ms := UnusedReport(f);
    forall i | 0 <= i < |ms| ensures ms[i].line >= 1 {
      assert ms[i] in ms;
    }
  }

  lemma {:induction false} VisitCompoundSound(items: seq<Node>, hdr: nat, st: State, g0: Grader.Grade)
    requires Sound(st, g0)
    ensures Sound(VisitCompound(items, hdr, st), g0)
    decreases items, 1
  {
    var st1 := st.(stack := st.stack + [[]]);
    assert StackOk(st1.stack) by {
      assert forall i :: 0 <= i < |st.stack| ==> st1.stack[i] == st.stack[i];
    }
    VisitAllSound(items, hdr, st1, g0);
    var st2 := VisitAll(items, hdr, st1);
    var popped := st2.(stack := Outer(st2.stack));
    assert StackOk(popped.stack) by {
      assert forall i :: 0 <= i < |popped.stack| ==> popped.stack[i] == st2.stack[i];
    }
    assert FrameOk(Top(st2.stack));
    UnusedReportOk(Top(st2.stack));
    EmitSound(popped, UnusedReport(Top(st2.stack)), g0);
  }

  lemma ReportOk(t: LineTable.Table)
    requires TableOk(t)
    ensures MessagesOk(LineTable.Report(t))
  {
    LineTable.ReportOnlyShared(t);
    var ms := LineTable.Report(t);
    forall i | 0 <= i < |ms| ensures ms[i].line >= 1 {
      assert ms[i] in ms;
      var k :| 0 <= k < |t| && LineTable.Lines(t)[k] == ms[i].line;
    }
  }

  /** A whole unit keeps the invariant, the final pass included. */
  lemma CheckUnitSound(root: Node, hdr: nat, grade: Grader.Grade)
    ensures Sound(CheckUnit(root, hdr, grade), grade)
  {
    var st0 := Start(grade);
    assert Sound(st0, grade);
    VisitSound(root, hdr, st0, grade);
    var st := Visit(root, hdr, st0);
    ReportOk(st.lines);
    EmitSound(st, LineTable.Report(st.lines), grade);
  }

  /** The messages `r` holds beyond those of `st` are naming or array ones only. */
  predicate OnlyNamingOrVla(st: State, r: State) {
    forall i :: |st.errors| <= i < |r.errors| ==> r.errors[i].NotLowercase? || r.errors[i].VariableLengthArray?
  }

  /** What a walk inside a parameter list keeps. */
  predicate Quiet(st: State, r: State) {
    && r.lines == st.lines
    && (|st.stack| > 0 && |r.stack| == |st.stack| ==> |Top(r.stack)| == |Top(st.stack)|)
    && OnlyNamingOrVla(st, r)
  }

  lemma QuietChain(a: State, b: State, c: State)
    requires a.errors <= b.errors <= c.errors && |a.stack| == |b.stack| == |c.stack|
    requires Quiet(a, b) && Quiet(b, c)
    ensures Quiet(a, c)
  {
    forall i | |a.errors| <= i < |c.errors|
      ensures c.errors[i].NotLowercase? || c.errors[i].VariableLengthArray?
    {
      if i < |b.errors| { assert c.errors[i] == b.errors[i]; }
    }
  }

  /**
   Inside a parameter list nothing is recorded, neither for XII.A nor for
   XII.C, and the only rules that can fire are I.A and XII.D.
   */
  lemma {:induction false} ParamsQuiet(n: Node, hdr: nat, st: State)
    requires Fits(st) && st.inParam
    ensures Quiet(st, Visit(n, hdr, st))
    decreases n, 2
  {
    match n
    case Decl(_, _, _, _, _) => DeclQuiet(n, hdr, st);
    case ID(x) =>
    case Constant =>
    case Compound(items) => CompoundQuiet(items, hdr, st);
    case FuncDef(_, _) => FuncDefQuiet(n, hdr, st);
    case ArrayDecl(elem, dim) =>
      ParamsQuiet(elem, hdr, st);
      if dim.Some? {
        ParamsQuiet(dim.value, hdr, Visit(elem, hdr, st));
        QuietChain(st, Visit(elem, hdr, st), Visit(dim.value, hdr, Visit(elem, hdr, st)));
      }
    case FuncDecl(args, ret) =>
      var st1 := if args.Some? then Visit(args.value, hdr, st) else st;
      if args.Some? { ParamsQuiet(args.value, hdr, st); }
      ParamsQuiet(ret, hdr, st1);
      QuietChain(st, st1, Visit(ret, hdr, st1));
    case Other(kids) => ParamsQuietAll(kids, hdr, st);
  }

  lemma CheckDeclQuiet(x: string, line: int, typ: Node, initialised: bool, hdr: nat, st: State)
    requires line > hdr && Fits(st) && st.inParam
    ensures Quiet(st, CheckDecl(x, line, typ, initialised, hdr, st))
  {
    var l := line - hdr;
    Rules.ParameterOnlyNamingAndVla(x, l, Text.IsLower(x), st.inGlobal, initialised, typ);
    var ms := Rules.DeclReport(x, l, Text.IsLower(x), st.inGlobal, true, initialised, typ);
    var r := CheckDecl(x, line, typ, initialised, hdr, st);
    assert r.errors == st.errors + ms;
    forall i | |st.errors| <= i < |r.errors|
      ensures r.errors[i].NotLowercase? || r.errors[i].VariableLengthArray?
    {
      assert r.errors[i] == ms[i - |st.errors|];
      assert ms[i - |st.errors|] in ms;
    }
  }

  lemma {:induction false} DeclQuiet(n: Node, hdr: nat, st: State)
    requires n.Decl? && Fits(st) && st.inParam
    ensures Quiet(st, VisitDecl(n, hdr, st))
    decreases n, 1
  {
    if n.name.Some? {
      var st1 := if n.line > hdr then CheckDecl(n.name.value, n.line, n.typ, n.init.Some?, hdr, st) else st;
      if n.line > hdr { CheckDeclQuiet(n.name.value, n.line, n.typ, n.init.Some?, hdr, st); }
      DeclKidsQuiet(n, hdr, st1);
      QuietChain(st, st1, VisitDeclKids(n, hdr, st1));
    }
  }

  lemma {:induction false} DeclKidsQuiet(n: Node, hdr: nat, st: State)
    requires n.Decl? && Fits(st) && st.inParam
    ensures Quiet(st, VisitDeclKids(n, hdr, st))
    decreases n, 0
  {
    ParamsQuiet(n.typ, hdr, st);
    var st1 := Visit(n.typ, hdr, st);
    var st2 := if n.init.Some? then Visit(n.init.value, hdr, st1) else st1;
    if n.init.Some? {
      ParamsQuiet(n.init.value, hdr, st1);
      QuietChain(st, st1, st2);
    }
    if n.bitsize.Some? {
      ParamsQuiet(n.bitsize.value, hdr, st2);
      QuietChain(st, st2, Visit(n.bitsize.value, hdr, st2));
    }
  }

  lemma {:induction false} FuncDefQuiet(n: Node, hdr: nat, st: State)
    requires n.FuncDef? && Fits(st) && st.inParam
    ensures Quiet(st, VisitFuncDef(n, hdr, st))
    decreases n, 1
  {
    var st1 := st.(inGlobal := false);
    var hasArgs := n.decl.Decl? && n.decl.typ.FuncDecl? && n.decl.typ.args.Some?;
    if hasArgs { ParamsQuiet(n.decl.typ.args.value, hdr, st1.(inParam := true)); }
    var st2 := if hasArgs
               then Visit(n.decl.typ.args.value, hdr, st1.(inParam := true)).(inParam := st1.inParam)
               else st1;
    CompoundQuiet(n.body, hdr, st2);
    QuietChain(st, st2, VisitCompound(n.body, hdr, st2));
  }

  lemma {:induction false} ParamsQuietAll(ns: seq<Node>, hdr: nat, st: State)
    requires Fits(st) && st.inParam
    ensures Quiet(st, VisitAll(ns, hdr, st))
    decreases ns, 0
  {
    if ns != [] {
      ParamsQuiet(ns[0], hdr, st);
      var st1 := Visit(ns[0], hdr, st);
      ParamsQuietAll(ns[1..], hdr, st1);
      QuietChain(st, st1, VisitAll(ns[1..], hdr, st1));
    }
  }

  lemma {:induction false} CompoundQuiet(items: seq<Node>, hdr: nat, st: State)
    requires st.inParam
    ensures Quiet(st, VisitCompound(items, hdr, st))
    decreases items, 1
  {
    var st1 := st.(stack := st.stack + [[]]);
    ParamsQuietAll(items, hdr, st1);
    var st2 := VisitAll(items, hdr, st1);
    assert |Top(st2.stack)| == 0;
    assert UnusedReport(Top(st2.stack)) == [];
    assert VisitCompound(items, hdr, st).errors == st2.errors + [];
  }

  /**
   A function definition at file scope walks its own parameter list as
   parameters: with an empty body, the definition records no line and
   emits only casing and array messages.
   */
  lemma FileScopeParamsQuiet(d: Node, hdr: nat, st: State)
    requires st.inGlobal && !st.inParam && d.Decl? && d.typ.FuncDecl? && d.typ.args.Some?
    ensures var r := VisitFuncDef(FuncDef(d, []), hdr, st);
            r.lines == st.lines && OnlyNamingOrVla(st, r)
  {
    var st1 := st.(inGlobal := false, inParam := true);
    var st2 := Visit(d.typ.args.value, hdr, st1).(inParam := false);
    ParamsQuiet(d.typ.args.value, hdr, st1);
    var st3 := st2.(stack := st2.stack + [[]]);
    assert VisitAll([], hdr, st3) == st3;
    assert UnusedReport(Top(st3.stack)) == [];
    assert VisitCompound([], hdr, st2).errors == st2.errors + [];
  }

  /** An anonymous declaration is skipped whole: its children are not walked. */
  lemma UnnamedDeclSkipped(line: int, typ: Node, init: Option<Node>, bits: Option<Node>, hdr: nat, st: State)
    requires Fits(st)
    ensures Visit(Decl(None, line, typ, init, bits), hdr, st) == st
  {
  }

  /** The present one of an optional child, as a list. */
  function Opt(o: Option<Node>): seq<Node> {
    if o.Some? then [o.value] else []
  }

  lemma VisitAllOpt(o: Option<Node>, rest: seq<Node>, hdr: nat, st: State)
    requires Fits(st)
    ensures VisitAll(Opt(o) + rest, hdr, st) == VisitAll(rest, hdr, if o.Some? then Visit(o.value, hdr, st) else st)
  {
    if o.Some? { assert (Opt(o) + rest)[1..] == rest; } else { assert Opt(o) + rest == rest; }
  }

  /** A declaration in the header is not checked or recorded, but its
      children are still walked, as if it were a plain container. */
  lemma HeaderDeclOnlyWalksChildren(x: string, line: int, typ: Node, init: Option<Node>, bits: Option<Node>,
                                    hdr: nat, st: State)
    requires Fits(st) && line <= hdr
    ensures Visit(Decl(Some(x), line, typ, init, bits), hdr, st)
            == Visit(Other([typ] + Opt(init) + Opt(bits)), hdr, st)
  {
    var n := Decl(Some(x), line, typ, init, bits);
    var st1 := Visit(typ, hdr, st);
    var st2 := if init.Some? then Visit(init.value, hdr, st1) else st1;
    var kids := [typ] + Opt(init) + Opt(bits);
    assert kids[0] == typ && kids[1..] == Opt(init) + Opt(bits);
    calc {
      Visit(n, hdr, st);
      VisitDeclKids(n, hdr, st);
      if bits.Some? then Visit(bits.value, hdr, st2) else st2;
      { VisitAllOpt(bits, [], hdr, st2); assert Opt(bits) + [] == Opt(bits); }
      VisitAll(Opt(bits), hdr, st2);
      { VisitAllOpt(init, Opt(bits), hdr, st1); }
      VisitAll(kids[1..], hdr, st1);
      VisitAll(kids, hdr, st);
    }
  }

  /** The name, line, initialiser and width of a function definition's own
      declaration play no part in the check. */
  lemma FuncDefOwnDeclIgnored(n1: Option<string>, l1: int, i1: Option<Node>, b1: Option<Node>,
                              n2: Option<string>, l2: int, i2: Option<Node>, b2: Option<Node>,
                              typ: Node, body: seq<Node>, hdr: nat, st: State)
    requires Fits(st)
    ensures Visit(FuncDef(Decl(n1, l1, typ, i1, b1), body), hdr, st)
            == Visit(FuncDef(Decl(n2, l2, typ, i2, b2), body), hdr, st)
  {
  }

  lemma {:induction false} UpdateAllRepeat(g: Grader.Grade, key: string, k: nat)
    ensures Grader.UpdateAll(g, Repeat(key, k)) == if k == 0 then g else Grader.UpdateItem(g, key)
  {
    if k > 0 {
      UpdateAllRepeat(g, key, k - 1);
      assert Repeat(key, k)[..k - 1] == Repeat(key, k - 1);
    }
  }

  /**
   Rule I.C: the predefined macros are never flagged, any other name is
   flagged iff it is not upper-case (a one-letter name such as `N` passes),
   and however many names are flagged the ledger fails I.C once.
   */
  lemma MacroCheckVerdict(names: seq<string>, g: Grader.Grade)
    ensures forall x :: x in BuiltinMacros ==> x !in FlaggedMacros(names)
    ensures forall x :: x in names && x !in BuiltinMacros ==> (x in FlaggedMacros(names) <==> !Text.IsUpper(x))
    ensures MacroCheck(names, g).grade
            == if FlaggedMacros(names) == [] then g else Grader.UpdateItem(g, "I.C")
    ensures MacroCheck(names, g).passTest <==> FlaggedMacros(names) == []
  {
    UpdateAllRepeat(g, "I.C", |FlaggedMacros(names)|);
  }

  /**
   The driver's ledger, from a fresh grade: it keeps exactly the graded
   rules, and a graded rule fails iff the macro check flagged a name (for
   I.C) or some message of that rule was emitted. Locality messages are
   emitted but never reach the ledger. Every emitted line is at least 1.
   */
  lemma WholeCheckLedger(macros: seq<string>, ast: Option<Node>, hdr: nat, username: string)
    ensures var r := WholeCheck(macros, ast, hdr, Grader.NewGrade(username));
            && r.grade.data.Keys == Grader.GradeItems
            && (forall k :: k in Grader.GradeItems ==>
                  (!r.grade.data[k] <==> (k == "I.C" && !r.passTest) || k in RuleKeys(r.errors)))
            && (forall i :: 0 <= i < |r.errors| ==> r.errors[i].line >= 1)
  {
    var g0 := Grader.NewGrade(username);
    var flagged := FlaggedMacros(macros);
    var g1 := Grader.UpdateAll(g0, Repeat("I.C", |flagged|));
    Grader.UpdateAllFails(g0, Repeat("I.C", |flagged|));
    assert forall k :: k in Grader.GradeItems ==> (g1.data[k] <==> !(k == "I.C" && flagged != [])) by {
      forall k | k in Grader.GradeItems ensures g1.data[k] <==> !(k == "I.C" && flagged != []) {
        if k == "I.C" && flagged != [] { assert Repeat("I.C", |flagged|)[0] == k; }
      }
    }
    if ast.Some? {
      var st := CheckUnit(ast.value, hdr, g1);
      CheckUnitSound(ast.value, hdr, g1);
      Grader.UpdateAllFails(g1, RuleKeys(st.errors));
    }
  }
}
