/**
 Small programs worked through the current checker's model, showing where its
 block-locality rule (XII.C) departs from "declare at the innermost block
 enclosing every use": only the innermost frame is ever consulted.
 */
module FullStackExamples {
  import opened Ast
  import opened Scope
  import opened FullStack
  import Text
  import Rules
  import LineTable
  import Grader

  /** `void f() { ... }` with the given body items, on line 1. */
  function Fn(body: seq<Node>): Node {
    FuncDef(Decl(Some("f"), 1, FuncDecl(None, Other([])), None, None), body)
  }

  /** `int x = 0;` on `line`. */
  function IntX(line: int): Node {
    Decl(Some("x"), line, Other([]), Some(Constant), None)
  }

  /** `{ x; }`: a block that only uses `x`. */
  function UseBlock(): Node {
    Compound([ID("x")])
  }

  lemma EmitNothing(st: State)
    ensures Emit(st, []) == st
  {
    assert st.errors + [] == st.errors;
  }

  // A walk of a short sequence, each step given by its own lemma.

  lemma Walk1(a: Node, st: State, s1: State)
    requires Fits(st) && Visit(a, 0, st) == s1
    ensures VisitAll([a], 0, st) == s1
  {
    assert [a][1..] == [];
  }

  lemma Walk2(a: Node, b: Node, st: State, s1: State, s2: State)
    requires Fits(st) && Visit(a, 0, st) == s1 && Visit(b, 0, s1) == s2
    ensures VisitAll([a, b], 0, st) == s2
  {
    assert [a, b][1..] == [b];
    Walk1(b, s1, s2);
  }

  lemma Walk3(a: Node, b: Node, c: Node, st: State, s1: State, s2: State, s3: State)
    requires Fits(st) && Visit(a, 0, st) == s1 && Visit(b, 0, s1) == s2 && Visit(c, 0, s2) == s3
    ensures VisitAll([a, b, c], 0, st) == s3
  {
    assert [a, b, c][1..] == [b, c];
    Walk2(b, c, s1, s2, s3);
  }

  /** A well-named, initialised local is recorded and reported nowhere. */
  lemma LocalX(l: int, st: State)
    requires !st.inGlobal && !st.inParam && |st.stack| > 0 && l >= 1
    ensures Visit(IntX(l), 0, st)
            == st.(stack := SetTop(st.stack, Declare(Top(st.stack), "x", l)),
                   lines := LineTable.Add(st.lines, l, "x"))
  {
    assert Text.IsLower("x") by { assert Text.IsLowerChar("x"[0]); }
    var ms := Rules.DeclReport("x", l, Text.IsLower("x"), false, false, true, Other([]));
    assert ms == [];
    var st1 := DeclareLocal("x", l, st);
    var st2 := RecordLine("x", l, st1);
    EmitNothing(st2);
    var n := IntX(l);
    assert CheckDecl("x", l, Other([]), true, 0, st) == st2;
    assert Visit(Other([]), 0, st2) == VisitAll([], 0, st2) == st2;
    assert Visit(Constant, 0, st2) == st2;
    assert VisitDeclKids(n, 0, st2) == st2;
    assert Visit(n, 0, st) == VisitDecl(n, 0, st) == VisitDeclKids(n, 0, st2);
  }

  /** A block that only uses `x` leaves the state as it found it. */
  lemma UseInOwnBlock(st: State)
    requires Fits(st)
    ensures Visit(UseBlock(), 0, st) == st
  {
    var st1 := st.(stack := st.stack + [[]]);
    assert !Has([], "x");
    assert VisitId("x", st1) == st1;
    Walk1(ID("x"), st1, st1);
    EmitNothing(st);
  }

  /** `f` leaves file scope, has no parameter list, and walks its body as a block. */
  lemma FnVisit(body: seq<Node>, st: State)
    requires Fits(st)
    ensures Visit(Fn(body), 0, st) == VisitCompound(body, 0, st.(inGlobal := false)).(inGlobal := st.inGlobal)
  {
  }

  /** The walk of `f` with frame-opening and the return to file scope spelt out. */
  lemma FnSteps(body: seq<Node>, st: State)
    requires st.inGlobal && !st.inParam
    ensures Visit(Other([Fn(body)]), 0, st) == VisitCompound(body, 0, st.(inGlobal := false)).(inGlobal := true)
  {
    FnVisit(body, st);
    Walk1(Fn(body), st, VisitCompound(body, 0, st.(inGlobal := false)).(inGlobal := true));
  }

  lemma OneNameNoShare(l: int, x: string)
    ensures LineTable.Report([LineTable.LineEntry(l, [x])]) == []
  {
    var t := [LineTable.LineEntry(l, [x])];
    assert t[1..] == [];
  }

  /** The unit holding only `f`: its body's block, then the final pass. */
  lemma FnUnit(body: seq<Node>, g: Grader.Grade)
    ensures CheckUnit(Other([Fn(body)]), 0, g)
            == Finalize(VisitCompound(body, 0, Start(g).(inGlobal := false)).(inGlobal := true))
  {
    FnSteps(body, Start(g));
  }

  /** Closing a block whose only entry is `x` from line 2, then the final pass. */
  lemma CloseX(used: bool, st: State)
    requires st.stack == [[Entry("x", 2, used)]] && st.lines == [LineTable.LineEntry(2, ["x"])] && st.errors == []
    ensures Finalize(Emit(st.(stack := []), UnusedReport(Top(st.stack))).(inGlobal := true)).errors
            == (if used then [] else [NotLocal(2, "x")])
  {
    var f := [Entry("x", 2, used)];
    assert f[1..] == [];
    assert UnusedReport(f) == (if used then [] else [NotLocal(2, "x")]);
    OneNameNoShare(2, "x");
  }

  /** The frame and line table after `int x = 0;` on line 2 in a fresh block. */
  lemma FirstX(b1: State)
    requires !b1.inGlobal && !b1.inParam && b1.stack == [[]] && b1.lines == []
    ensures Visit(IntX(2), 0, b1)
            == b1.(stack := [[Entry("x", 2, false)]], lines := [LineTable.LineEntry(2, ["x"])])
  {
    LocalX(2, b1);
    assert !Has([], "x");
    assert Declare([], "x", 2) == [Entry("x", 2, false)];
  }

  /** A block body walked from a fresh frame, then closed and finalised. */
  lemma BodyUnit(body: seq<Node>, g: Grader.Grade, after: State)
    requires VisitAll(body, 0, Start(g).(inGlobal := false, stack := [[]])) == after
    ensures CheckUnit(Other([Fn(body)]), 0, g)
            == Finalize(Emit(after.(stack := Outer(after.stack)), UnusedReport(Top(after.stack))).(inGlobal := true))
  {
    FnUnit(body, g);
  }

  /** A use of `x` in the block that declared it marks the entry. */
  lemma UseX(st: State)
    requires st.stack == [[Entry("x", 2, false)]]
    ensures Visit(ID("x"), 0, st) == st.(stack := [[Entry("x", 2, true)]])
  {
    var f := [Entry("x", 2, false)];
    assert Has(f, "x") by { assert f[0].name == "x"; }
    assert f[1..] == [];
    assert Mark(f, "x") == [Entry("x", 2, true)];
    assert SetTop(st.stack, Mark(f, "x")) == [[Entry("x", 2, true)]];
  }

  /** A use in the declaring block itself keeps the declaration quiet. */
  lemma SameBlockUseIsLocal(g: Grader.Grade)
    ensures CheckUnit(Other([Fn([IntX(2), ID("x")])]), 0, g).errors == []
  {
    var b1 := Start(g).(inGlobal := false, stack := [[]]);
    var b2 := b1.(stack := [[Entry("x", 2, false)]], lines := [LineTable.LineEntry(2, ["x"])]);
    var b3 := b2.(stack := [[Entry("x", 2, true)]]);
    FirstX(b1);
    UseX(b2);
    Walk2(IntX(2), ID("x"), b1, b2, b3);
    BodyUnit([IntX(2), ID("x")], g, b3);
    CloseX(true, b3);
  }

  /** A use only inside a nested block is not seen by the declaring block. */
  lemma NestedUseOnlyIsReported(g: Grader.Grade)
    ensures CheckUnit(Other([Fn([IntX(2), UseBlock()])]), 0, g).errors == [NotLocal(2, "x")]
  {
    var b1 := Start(g).(inGlobal := false, stack := [[]]);
    var b2 := b1.(stack := [[Entry("x", 2, false)]], lines := [LineTable.LineEntry(2, ["x"])]);
    FirstX(b1);
    UseInOwnBlock(b2);
    Walk2(IntX(2), UseBlock(), b1, b2, b2);
    BodyUnit([IntX(2), UseBlock()], g, b2);
    CloseX(false, b2);
  }

  /** Uses in two sibling blocks still leave the outer declaration reported,
      although the outer block is the innermost one enclosing both uses. */
  lemma SiblingUsesAreReported(g: Grader.Grade)
    ensures CheckUnit(Other([Fn([IntX(2), UseBlock(), UseBlock()])]), 0, g).errors == [NotLocal(2, "x")]
  {
    var b1 := Start(g).(inGlobal := false, stack := [[]]);
    var b2 := b1.(stack := [[Entry("x", 2, false)]], lines := [LineTable.LineEntry(2, ["x"])]);
    FirstX(b1);
    UseInOwnBlock(b2);
    Walk3(IntX(2), UseBlock(), UseBlock(), b1, b2, b2, b2);
    BodyUnit([IntX(2), UseBlock(), UseBlock()], g, b2);
    CloseX(false, b2);
  }

  /** `int p` as a parameter of a prototype on line 1. */
  function ParamOf(p: string): Node {
    Decl(Some(p), 1, Other([]), None, None)
  }

  /** `int f(int p);` on line 1. */
  function ProtoOf(f: string, p: string): Node {
    Decl(Some(f), 1, FuncDecl(Some(Other([ParamOf(p)])), Other([])), None, None)
  }

  /** A lower-case function name and a parameter name that is not, neither with the prefix. */
  predicate ProtoNames(f: string, p: string) {
    Text.IsLower(f) && !Text.StartsWith(f, Rules.GlobalPrefix)
    && !Text.IsLower(p) && !Text.StartsWith(p, Rules.GlobalPrefix)
  }

  /** `int f(int X);` has such names. */
  lemma SampleProtoNames()
    ensures ProtoNames("f", "X")
  {
    assert Text.IsLowerChar("f"[0]);
    assert Text.IsUpperChar("X"[0]);
  }

  /** What the prototype's name draws at file scope. */
  function NameMessages(f: string): seq<Message> {
    [NoGlobalPrefix(1, f), Uninitialised(1, f)]
  }

  /** What the prototype's parameter draws at file scope. */
  function ParamMessages(p: string): seq<Message> {
    [NotLowercase(1, p), NoGlobalPrefix(1, p), Uninitialised(1, p)]
  }

  lemma ProtoNameChecked(f: string, p: string, st: State)
    requires ProtoNames(f, p)
    requires st.inGlobal && !st.inParam && st.lines == []
    ensures CheckDecl(f, 1, ProtoOf(f, p).typ, false, 0, st)
            == Emit(st.(lines := [LineTable.LineEntry(1, [f])]), NameMessages(f))
    ensures RuleKeys(NameMessages(f)) == ["I.D", "XII.B"]
  {
    assert Rules.DeclReport(f, 1, Text.IsLower(f), true, false, false, ProtoOf(f, p).typ) == NameMessages(f);
  }

  lemma SecondOnLine(f: string, p: string)
    ensures LineTable.Add([LineTable.LineEntry(1, [f])], 1, p) == [LineTable.LineEntry(1, [f, p])]
  {
    var t := [LineTable.LineEntry(1, [f])];
    assert t[1..] == [];
    assert [f] + [p] == [f, p];
  }

  lemma ParamReport(p: string)
    requires !Text.IsLower(p) && !Text.StartsWith(p, Rules.GlobalPrefix)
    ensures Rules.DeclReport(p, 1, Text.IsLower(p), true, false, false, Other([])) == ParamMessages(p)
  {
  }

  /** The prototype's parameter is checked with the file-scope flags. */
  lemma ProtoParamChecked(f: string, p: string, st: State)
    requires ProtoNames(f, p)
    requires st.inGlobal && !st.inParam && st.lines == [LineTable.LineEntry(1, [f])]
    ensures Visit(ParamOf(p), 0, st) == Emit(st.(lines := [LineTable.LineEntry(1, [f, p])]), ParamMessages(p))
    ensures RuleKeys(ParamMessages(p)) == ["I.A", "I.D", "XII.B"]
  {
    ParamReport(p);
    SecondOnLine(f, p);
    var st2 := CheckDecl(p, 1, Other([]), false, 0, st);
    assert Visit(Other([]), 0, st2) == VisitAll([], 0, st2) == st2;
    assert Visit(ParamOf(p), 0, st) == VisitDeclKids(ParamOf(p), 0, st2);
  }

  lemma SharedPair(f: string, p: string)
    ensures LineTable.Report([LineTable.LineEntry(1, [f, p])]) == [SharedLine(1, f), SharedLine(1, p)]
  {
    var t := [LineTable.LineEntry(1, [f, p])];
    assert t[1..] == [];
    assert LineTable.SharedAll(1, [f, p]) == [SharedLine(1, f), SharedLine(1, p)] by {
      assert [f, p][1..] == [p];
      assert [p][1..] == [];
    }
  }

  /** A function type outside a definition: its parameter list, then its result type. */
  lemma FuncDeclWalk(args: Node, ret: Node, s1: State, s2: State, s3: State)
    requires Fits(s1) && Visit(args, 0, s1) == s2 && Visit(ret, 0, s2) == s3
    ensures Visit(FuncDecl(Some(args), ret), 0, s1) == s3
  {
  }

  /** A named, uninitialised declaration of the source file: the check, then its type. */
  lemma BareDeclWalk(x: string, line: int, typ: Node, s0: State, s1: State, s2: State)
    requires line > 0 && Fits(s0)
    requires CheckDecl(x, line, typ, false, 0, s0) == s1 && Visit(typ, 0, s1) == s2
    ensures Visit(Decl(Some(x), line, typ, None, None), 0, s0) == s2
  {
    assert Visit(Decl(Some(x), line, typ, None, None), 0, s0) == VisitDeclKids(Decl(Some(x), line, typ, None, None), 0, s1);
  }

  /** The walk of the prototype: the name first, then the parameter list. */
  lemma ProtoWalk(f: string, p: string, s0: State, s1: State, s2: State)
    requires ProtoNames(f, p)
    requires s0.inGlobal && !s0.inParam && s0.lines == []
    requires s1 == Emit(s0.(lines := [LineTable.LineEntry(1, [f])]), NameMessages(f))
    requires s2 == Emit(s1.(lines := [LineTable.LineEntry(1, [f, p])]), ParamMessages(p))
    ensures Visit(ProtoOf(f, p), 0, s0) == s2
  {
    ProtoNameChecked(f, p, s0);
    ProtoParamChecked(f, p, s1);
    Walk1(ParamOf(p), s1, s2);
    assert Visit(Other([]), 0, s2) == VisitAll([], 0, s2) == s2;
    FuncDeclWalk(Other([ParamOf(p)]), Other([]), s1, s2, s2);
    BareDeclWalk(f, 1, ProtoOf(f, p).typ, s0, s1, s2);
  }

  /** A unit holding one top-level item: its walk, then the final pass. */
  lemma OneRoot(n: Node, g: Grader.Grade, s0: State, s: State)
    requires s0 == Start(g) && Visit(n, 0, s0) == s
    ensures CheckUnit(Other([n]), 0, g) == Finalize(s)
  {
    Walk1(n, s0, s);
    assert Visit(Other([n]), 0, s0) == s;
  }

  lemma ProtoAllMessages(e: seq<Message>, f: string, p: string)
    requires e == []
    ensures e + NameMessages(f) + ParamMessages(p) + [SharedLine(1, f), SharedLine(1, p)]
            == [NoGlobalPrefix(1, f), Uninitialised(1, f),
                NotLowercase(1, p), NoGlobalPrefix(1, p), Uninitialised(1, p),
                SharedLine(1, f), SharedLine(1, p)]
  {
  }

  /** A prototype such as `int f(int X);` is walked at file scope: both the
      function's name and its parameter are checked as globals, and the two
      share line 1. */
  lemma PrototypeCheckedAsGlobals(f: string, p: string, g: Grader.Grade)
    requires ProtoNames(f, p)
    ensures CheckUnit(Other([ProtoOf(f, p)]), 0, g).errors
            == [NoGlobalPrefix(1, f), Uninitialised(1, f),
                NotLowercase(1, p), NoGlobalPrefix(1, p), Uninitialised(1, p),
                SharedLine(1, f), SharedLine(1, p)]
  {
    var s0 := Start(g);
    var s1 := Emit(s0.(lines := [LineTable.LineEntry(1, [f])]), NameMessages(f));
    var s2 := Emit(s1.(lines := [LineTable.LineEntry(1, [f, p])]), ParamMessages(p));
    ProtoWalk(f, p, s0, s1, s2);
    OneRoot(ProtoOf(f, p), g, s0, s2);
    assert s2.errors == s0.errors + NameMessages(f) + ParamMessages(p);
    SharedPair(f, p);
    ProtoAllMessages(s0.errors, f, p);
  }
}
