/**
 The sample program of the earlier checker, as the parser gives it
 (declarations with their own lines inside the program text), and the
 messages the checker emits for it. The tree is built over a record of
 the names it declares, so that the walk is proved once over those names
 and each name's own character facts are proved on its own.
 */
module LegacyExamples {
  import opened Ast
  import opened Legacy
  import Text
  import Rules
  import LineTable

  /** The names the sample program declares, one field per declaration. */
  datatype Names = Names(temperature: string, roomTemp: string, invalidCamelCase: string,
                         pressure: string, altitude: string, arr: string, vla: string,
                         fun: string, arrParam: string, strParam: string,
                         main: string, localVar: string, a: string, b: string)

  /** The names as the sample program spells them. */
  function SampleNames(): Names {
    Names("g_temperature", "roomTemp", "invalidCamelCase", "g_pressure", "g_altitude", "g_arr", "g_vla",
          "function", "a", "s", "main", "localVar", "a", "b")
  }

  /** `int name = ...;` or `int name;` on `line`, a scalar. */
  function Scalar(name: string, line: int, initialised: bool): Node {
    Decl(Some(name), line, Other([]), if initialised then Some(Constant) else None, None)
  }

  /** `int name[5] = {1,2,3,4,5};` on line 7. */
  function FixedArray(name: string): Node {
    Decl(Some(name), 7, ArrayDecl(Other([]), Some(Constant)),
         Some(Other([Constant, Constant, Constant, Constant, Constant])), None)
  }

  /** `int name[n] = {0};` on line 8. */
  function OpenArray(name: string): Node {
    Decl(Some(name), 8, ArrayDecl(Other([]), Some(ID("n"))), Some(Other([Constant])), None)
  }

  /** The file-scope declarations on lines 2 and 3. */
  function Lines2to3(nm: Names): seq<Node> {
    [Scalar(nm.temperature, 2, true), Scalar(nm.roomTemp, 3, true), Scalar(nm.invalidCamelCase, 3, true)]
  }

  /** The file-scope declarations on lines 4 and 5. */
  function Lines4to5(nm: Names): seq<Node> {
    [Scalar(nm.pressure, 4, true), Scalar(nm.altitude, 5, false)]
  }

  /** The file-scope arrays on lines 7 and 8. */
  function Lines7to8(nm: Names): seq<Node> {
    [FixedArray(nm.arr), OpenArray(nm.vla)]
  }

  /** The file-scope declarations, lines 2 to 8 of the program text. */
  function Globals(nm: Names): seq<Node> {
    Lines2to3(nm) + Lines4to5(nm) + Lines7to8(nm)
  }

  /** The two parameters `int *a[3]` and `char s[6]`. */
  function Params(nm: Names): Node {
    Other([Decl(Some(nm.arrParam), 10, ArrayDecl(Other([Other([])]), Some(Constant)), None, None),
           Decl(Some(nm.strParam), 10, ArrayDecl(Other([]), Some(Constant)), None, None)])
  }

  /** `int function(int *a[3], char s[6]) { return 666; }`, lines 10 to 12. */
  function FunctionDef(nm: Names): Node {
    FuncDef(Decl(Some(nm.fun), 10, FuncDecl(Some(Params(nm)), Other([])), None, None), [Other([Constant])])
  }

  /** The declarations of `main`, lines 15 and 16. */
  function MainDecls(nm: Names): seq<Node> {
    [Scalar(nm.localVar, 15, true), Scalar(nm.a, 16, false), Scalar(nm.b, 16, true)]
  }

  /** `int main() { int localVar = 100; int a, b = 0; return 0; }`, lines 14 to 18. */
  function MainFn(nm: Names): Node {
    FuncDef(Decl(Some(nm.main), 14, FuncDecl(None, Other([])), None, None), MainDecls(nm) + [Other([Constant])])
  }

  function SampleOf(nm: Names): Node {
    Other(Globals(nm) + [FunctionDef(nm), MainFn(nm)])
  }

  /** The sample program, lines 1 to 19 of its text. */
  function Sample(): Node {
    SampleOf(SampleNames())
  }

  /** No declaration and no function definition anywhere in the tree. */
  predicate NoDecl(n: Node)
    decreases n, 1
  {
    match n
    case Decl(_, _, _, _, _) => false
    case ID(_) => true
    case Constant => true
    case Compound(items) => NoDeclAll(items)
    case FuncDef(_, _) => false
    case ArrayDecl(elem, dim) => NoDecl(elem) && (dim.Some? ==> NoDecl(dim.value))
    case FuncDecl(args, ret) => (args.Some? ==> NoDecl(args.value)) && NoDecl(ret)
    case Other(kids) => NoDeclAll(kids)
  }

  predicate NoDeclAll(ns: seq<Node>)
    decreases ns, 0
  {
    forall i :: 0 <= i < |ns| ==> NoDecl(ns[i])
  }

  /** A tree holding no declaration leaves the earlier checker's state alone. */
  lemma {:induction false} PlainWalk(n: Node, st: State)
    requires NoDecl(n)
    ensures Visit(n, st) == st
    decreases n, 1
  {
    match n
    case ID(_) =>
    case Constant =>
    case Compound(items) => PlainWalkAll(items, st);
    case ArrayDecl(elem, dim) =>
      PlainWalk(elem, st);
      if dim.Some? { PlainWalk(dim.value, st); }
    case FuncDecl(args, ret) =>
      if args.Some? { PlainWalk(args.value, st); }
      PlainWalk(ret, st);
    case Other(kids) => PlainWalkAll(kids, st);
  }

  lemma {:induction false} PlainWalkAll(ns: seq<Node>, st: State)
    requires NoDeclAll(ns)
    ensures VisitAll(ns, st) == st
    decreases ns, 0
  {
    if ns != [] {
      PlainWalk(ns[0], st);
      assert NoDeclAll(ns[1..]) by {
        forall i | 0 <= i < |ns[1..]| ensures NoDecl(ns[1..][i]) { assert ns[1..][i] == ns[i + 1]; }
      }
      PlainWalkAll(ns[1..], st);
    }
  }

  /** A named declaration whose children hold no declaration: only its own check. */
  lemma LeafDecl(x: string, line: int, typ: Node, init: Option<Node>, st: State)
    requires NoDecl(typ) && (init.Some? ==> NoDecl(init.value))
    ensures Visit(Decl(Some(x), line, typ, init, None), st) == CheckDecl(x, line, typ, init.Some?, st)
  {
    var n := Decl(Some(x), line, typ, init, None);
    var st1 := CheckDecl(x, line, typ, init.Some?, st);
    PlainWalk(typ, st1);
    if init.Some? { PlainWalk(init.value, st1); }
    assert VisitDeclKids(n, st1) == st1;
    assert Visit(n, st) == VisitDecl(n, st) == VisitDeclKids(n, st1);
  }

  /** Such a declaration, outside parameter lists, on a line not seen before. */
  lemma NewLineDecl(x: string, line: int, typ: Node, init: Option<Node>, st: State, ms: seq<Message>)
    requires NoDecl(typ) && (init.Some? ==> NoDecl(init.value)) && !st.inParam
    requires line !in LineTable.Lines(st.lines)
    requires ms == Rules.DeclReport(x, line, LowercaseOk(x), st.inGlobal, false, init.Some?, typ)
    ensures Visit(Decl(Some(x), line, typ, init, None), st)
            == st.(lines := st.lines + [LineTable.LineEntry(line, [x])], errors := st.errors + ms)
  {
    LeafDecl(x, line, typ, init, st);
    LineTable.AddNewLine(st.lines, line, x);
  }

  /** No upper-case letter anywhere in the name. */
  predicate NoUpper(x: string) {
    forall i :: 0 <= i < |x| ==> !Text.IsUpperChar(x[i])
  }

  /** The name starts with `g_`. */
  predicate Prefixed(x: string) {
    2 <= |x| && x[0] == 'g' && x[1] == '_'
  }

  /** A name the checker accepts at file scope. */
  predicate GoodGlobal(x: string) {
    NoUpper(x) && Prefixed(x)
  }

  /** A name the checker rejects at file scope on both counts. */
  predicate BadGlobal(x: string) {
    !NoUpper(x) && !Prefixed(x)
  }

  /** What the walk needs to know of the names on lines 2 and 3. */
  predicate HeadFacts(nm: Names) {
    GoodGlobal(nm.temperature) && BadGlobal(nm.roomTemp) && BadGlobal(nm.invalidCamelCase)
  }

  /** ... on lines 4 to 8. */
  predicate SingleFacts(nm: Names) {
    GoodGlobal(nm.pressure) && GoodGlobal(nm.altitude) && GoodGlobal(nm.arr) && GoodGlobal(nm.vla)
  }

  /** ... of the parameters of `function`. */
  predicate ParamFacts(nm: Names) {
    NoUpper(nm.arrParam) && NoUpper(nm.strParam)
  }

  /** ... of the locals of `main`. */
  predicate MainFacts(nm: Names) {
    !NoUpper(nm.localVar) && NoUpper(nm.a) && NoUpper(nm.b)
  }

  /** What the walk needs to know of the sample's names. */
  predicate Facts(nm: Names) {
    HeadFacts(nm) && SingleFacts(nm) && ParamFacts(nm) && MainFacts(nm)
  }

  /** The two character facts decide the checker's two name tests. */
  lemma NameTests(x: string)
    ensures LowercaseOk(x) <==> NoUpper(x)
    ensures Text.StartsWith(x, Rules.GlobalPrefix) <==> Prefixed(x)
  {
    Text.LowerFixesIffNoUpper(x);
    if 2 <= |x| {
      assert x[..2] == [x[0], x[1]];
    }
  }

  lemma HeadNameFacts(nm: Names)
    requires nm == SampleNames()
    ensures HeadFacts(nm)
  {
    assert nm.roomTemp[4] == 'T';
    assert nm.invalidCamelCase[7] == 'C';
  }

  lemma SingleNameFacts(nm: Names)
    requires nm == SampleNames()
    ensures SingleFacts(nm)
  {
  }

  lemma LocalNameFacts(nm: Names)
    requires nm == SampleNames()
    ensures ParamFacts(nm) && MainFacts(nm)
  {
    assert nm.localVar[5] == 'V';
  }

  /** The sample's names have the facts the walk needs. */
  lemma SampleFacts(nm: Names)
    requires nm == SampleNames()
    ensures Facts(nm)
  {
    HeadNameFacts(nm);
    SingleNameFacts(nm);
    LocalNameFacts(nm);
  }

  /** The sample program as written, with its own names. */
  lemma SampleProgramReport()
    ensures CheckUnit(Sample()).errors
            == [NotLowercase(3, "roomTemp"), NoGlobalPrefix(3, "roomTemp"),
                NotLowercase(3, "invalidCamelCase"), NoGlobalPrefix(3, "invalidCamelCase"),
                Uninitialised(5, "g_altitude"),
                VariableLengthArray(8),
                NotLowercase(15, "localVar"),
                Uninitialised(16, "a"),
                SharedLine(3, "roomTemp"), SharedLine(3, "invalidCamelCase"),
                SharedLine(16, "a"), SharedLine(16, "b")]
  {
    SampleFacts(SampleNames());
    SampleReport(SampleNames());
  }

  lemma VisitAllCons(n: Node, ns: seq<Node>, st: State)
    ensures VisitAll([n] + ns, st) == VisitAll(ns, Visit(n, st))
  {
    assert ([n] + ns)[1..] == ns;
  }

  lemma {:induction false} VisitAllSplit(a: seq<Node>, b: seq<Node>, st: State)
    ensures VisitAll(a + b, st) == VisitAll(b, VisitAll(a, st))
  {
    if a != [] {
      assert (a + b)[1..] == a[1..] + b;
      VisitAllSplit(a[1..], b, Visit(a[0], st));
    } else {
      assert a + b == b;
    }
  }

  lemma VisitAll2(a: Node, b: Node, st: State)
    ensures VisitAll([a, b], st) == Visit(b, Visit(a, st))
  {
    VisitAllCons(a, [b], st);
    VisitAllCons(b, [], Visit(a, st));
  }

  lemma VisitAll3(a: Node, b: Node, c: Node, st: State)
    ensures VisitAll([a, b, c], st) == Visit(c, Visit(b, Visit(a, st)))
  {
    VisitAllCons(a, [b, c], st);
    VisitAll2(b, c, Visit(a, st));
  }

  lemma AppendTwo<T>(s: seq<T>, a: T, b: T)
    ensures s + [a] + [b] == s + [a, b]
  {
  }

  lemma OntoEmpty<T>(s: seq<T>, a: T, b: T)
    requires s == []
    ensures s + [a] + [b] == [a, b]
  {
  }

  lemma AppendAssoc<T>(a: seq<T>, b: seq<T>, c: seq<T>)
    ensures a + b + c == a + (b + c)
  {
  }

  /** Three steps of a walk, each given by its own lemma, make the walk of the three. */
  lemma Chain3(a: Node, b: Node, c: Node, st: State, s1: State, s2: State, s3: State)
    requires Visit(a, st) == s1 && Visit(b, s1) == s2 && Visit(c, s2) == s3
    ensures VisitAll([a, b, c], st) == s3
  {
    VisitAll3(a, b, c, st);
  }

  lemma Chain2(a: Node, b: Node, st: State, s1: State, s2: State)
    requires Visit(a, st) == s1 && Visit(b, s1) == s2
    ensures VisitAll([a, b], st) == s2
  {
    VisitAll2(a, b, st);
  }

  // One lemma per kind of declaration the sample holds.

  /** An initialised global scalar with an accepted name: recorded, not reported. */
  lemma CleanScalar(st: State, x: string, line: int)
    requires GoodGlobal(x)
    requires st.inGlobal && !st.inParam && line !in LineTable.Lines(st.lines)
    ensures Visit(Scalar(x, line, true), st) == st.(lines := st.lines + [LineTable.LineEntry(line, [x])])
  {
    NameTests(x);
    NewLineDecl(x, line, Other([]), Some(Constant), st, []);
  }

  /** An initialised global scalar with a rejected name, first on its line. */
  lemma BadScalar(st: State, x: string, line: int)
    requires BadGlobal(x)
    requires st.inGlobal && !st.inParam && line !in LineTable.Lines(st.lines)
    ensures Visit(Scalar(x, line, true), st)
            == st.(lines := st.lines + [LineTable.LineEntry(line, [x])],
                   errors := st.errors + [NotLowercase(line, x), NoGlobalPrefix(line, x)])
  {
    BadGlobalReport(x, line);
    NewLineDecl(x, line, Other([]), Some(Constant), st, [NotLowercase(line, x), NoGlobalPrefix(line, x)]);
  }

  /** Such a scalar after another name on the same line joins that name. */
  lemma BadScalarJoins(st: State, t: LineTable.Table, y: string, x: string, line: int)
    requires BadGlobal(x)
    requires st.inGlobal && !st.inParam && line !in LineTable.Lines(t)
    requires st.lines == t + [LineTable.LineEntry(line, [y])]
    ensures Visit(Scalar(x, line, true), st)
            == st.(lines := t + [LineTable.LineEntry(line, [y, x])],
                   errors := st.errors + [NotLowercase(line, x), NoGlobalPrefix(line, x)])
  {
    BadGlobalReport(x, line);
    LineTable.AddToLastLine(t, line, [y], x);
    assert [y] + [x] == [y, x];
    LeafDecl(x, line, Other([]), Some(Constant), st);
  }

  lemma BadGlobalReport(x: string, line: int)
    requires BadGlobal(x)
    ensures Rules.DeclReport(x, line, LowercaseOk(x), true, false, true, Other([]))
            == [NotLowercase(line, x), NoGlobalPrefix(line, x)]
  {
    NameTests(x);
  }

  /** A global scalar with an accepted name and no initialiser. */
  lemma BareScalar(st: State, x: string, line: int)
    requires GoodGlobal(x)
    requires st.inGlobal && !st.inParam && line !in LineTable.Lines(st.lines)
    ensures Visit(Scalar(x, line, false), st)
            == st.(lines := st.lines + [LineTable.LineEntry(line, [x])], errors := st.errors + [Uninitialised(line, x)])
  {
    NameTests(x);
    NewLineDecl(x, line, Other([]), None, st, [Uninitialised(line, x)]);
  }

  lemma Arr(st: State, x: string)
    requires GoodGlobal(x)
    requires st.inGlobal && !st.inParam && 7 !in LineTable.Lines(st.lines)
    ensures Visit(FixedArray(x), st) == st.(lines := st.lines + [LineTable.LineEntry(7, [x])])
  {
    NameTests(x);
    var n := FixedArray(x);
    assert NoDecl(n.typ) && NoDecl(n.init.value);
    assert !IsVla(n.typ);
    NewLineDecl(x, 7, n.typ, n.init, st, []);
  }

  lemma Vla(st: State, x: string)
    requires GoodGlobal(x)
    requires st.inGlobal && !st.inParam && 8 !in LineTable.Lines(st.lines)
    ensures Visit(OpenArray(x), st)
            == st.(lines := st.lines + [LineTable.LineEntry(8, [x])], errors := st.errors + [VariableLengthArray(8)])
  {
    NameTests(x);
    var n := OpenArray(x);
    assert NoDecl(n.typ) && NoDecl(n.init.value);
    assert IsVla(n.typ);
    NewLineDecl(x, 8, n.typ, n.init, st, [VariableLengthArray(8)]);
  }

  /** A parameter with an accepted name and a fixed-size array type. */
  lemma QuietParam(x: string, line: int, typ: Node, st: State)
    requires NoUpper(x)
    requires NoDecl(typ) && !IsVla(typ) && st.inParam
    ensures Visit(Decl(Some(x), line, typ, None, None), st) == st
  {
    NameTests(x);
    LeafDecl(x, line, typ, None, st);
    assert Rules.DeclReport(x, line, LowercaseOk(x), st.inGlobal, true, false, typ) == [];
  }

  /** An initialised local scalar whose name is badly cased. */
  lemma CasedLocal(st: State, x: string, line: int)
    requires !NoUpper(x)
    requires !st.inGlobal && !st.inParam && line !in LineTable.Lines(st.lines)
    ensures Visit(Scalar(x, line, true), st)
            == st.(lines := st.lines + [LineTable.LineEntry(line, [x])], errors := st.errors + [NotLowercase(line, x)])
  {
    NameTests(x);
    NewLineDecl(x, line, Other([]), Some(Constant), st, [NotLowercase(line, x)]);
  }

  /** A local scalar with an accepted name and no initialiser. */
  lemma BareLocal(st: State, x: string, line: int)
    requires NoUpper(x)
    requires !st.inGlobal && !st.inParam && line !in LineTable.Lines(st.lines)
    ensures Visit(Scalar(x, line, false), st)
            == st.(lines := st.lines + [LineTable.LineEntry(line, [x])], errors := st.errors + [Uninitialised(line, x)])
  {
    NameTests(x);
    NewLineDecl(x, line, Other([]), None, st, [Uninitialised(line, x)]);
  }

  /** An initialised local with an accepted name, after another name on its line. */
  lemma CleanLocalJoins(st: State, t: LineTable.Table, y: string, x: string, line: int)
    requires NoUpper(x)
    requires !st.inGlobal && !st.inParam && line !in LineTable.Lines(t)
    requires st.lines == t + [LineTable.LineEntry(line, [y])]
    ensures Visit(Scalar(x, line, true), st) == st.(lines := t + [LineTable.LineEntry(line, [y, x])])
  {
    NameTests(x);
    assert Rules.DeclReport(x, line, LowercaseOk(x), false, false, true, Other([])) == [];
    LineTable.AddToLastLine(t, line, [y], x);
    assert [y] + [x] == [y, x];
    LeafDecl(x, line, Other([]), Some(Constant), st);
  }

  /** The table after line 3. */
  function HeadTable(nm: Names): LineTable.Table {
    [LineTable.LineEntry(2, [nm.temperature]), LineTable.LineEntry(3, [nm.roomTemp, nm.invalidCamelCase])]
  }

  /** The lines 4 and 5. */
  function MiddleLines(nm: Names): LineTable.Table {
    [LineTable.LineEntry(4, [nm.pressure]), LineTable.LineEntry(5, [nm.altitude])]
  }

  /** The lines 7 and 8. */
  function TailLines(nm: Names): LineTable.Table {
    [LineTable.LineEntry(7, [nm.arr]), LineTable.LineEntry(8, [nm.vla])]
  }

  /** The lines 4 to 8, one name each. */
  function SingleLines(nm: Names): LineTable.Table {
    MiddleLines(nm) + TailLines(nm)
  }

  /** The table after the file-scope declarations. */
  function GlobalTable(nm: Names): LineTable.Table {
    HeadTable(nm) + SingleLines(nm)
  }

  /** The lines 15 and 16, inside `main`. */
  function MainLines(nm: Names): LineTable.Table {
    [LineTable.LineEntry(15, [nm.localVar]), LineTable.LineEntry(16, [nm.a, nm.b])]
  }

  /** The table the final pass reads. */
  function FinalTable(nm: Names): LineTable.Table {
    GlobalTable(nm) + MainLines(nm)
  }

  /** Lines 2 and 3: both names on line 3 are badly cased and lack the prefix. */
  lemma GlobalsHead(nm: Names, st: State)
    requires HeadFacts(nm)
    requires st.inGlobal && !st.inParam && st.lines == []
    ensures VisitAll(Lines2to3(nm), st)
            == st.(lines := HeadTable(nm),
                   errors := st.errors + [NotLowercase(3, nm.roomTemp), NoGlobalPrefix(3, nm.roomTemp)]
                             + [NotLowercase(3, nm.invalidCamelCase), NoGlobalPrefix(3, nm.invalidCamelCase)])
  {
    var t, r, c := nm.temperature, nm.roomTemp, nm.invalidCamelCase;
    var s1 := st.(lines := st.lines + [LineTable.LineEntry(2, [t])]);
    var s2 := s1.(lines := s1.lines + [LineTable.LineEntry(3, [r])],
                  errors := s1.errors + [NotLowercase(3, r), NoGlobalPrefix(3, r)]);
    var s3 := s2.(lines := s1.lines + [LineTable.LineEntry(3, [r, c])],
                  errors := s2.errors + [NotLowercase(3, c), NoGlobalPrefix(3, c)]);
    CleanScalar(st, t, 2);
    assert LineTable.Lines(s1.lines) == [2];
    BadScalar(s1, r, 3);
    BadScalarJoins(s2, s1.lines, r, c, 3);
    Chain3(Scalar(t, 2, true), Scalar(r, 3, true), Scalar(c, 3, true), st, s1, s2, s3);
    OntoEmpty(st.lines, LineTable.LineEntry(2, [t]), LineTable.LineEntry(3, [r, c]));
  }

  /** Lines 4 and 5: the second global has no initialiser. */
  lemma GlobalsMiddle(nm: Names, st: State)
    requires SingleFacts(nm)
    requires st.inGlobal && !st.inParam
    requires 4 !in LineTable.Lines(st.lines) && 5 !in LineTable.Lines(st.lines)
    ensures VisitAll(Lines4to5(nm), st)
            == st.(lines := st.lines + MiddleLines(nm),
                   errors := st.errors + [Uninitialised(5, nm.altitude)])
  {
    var p, a := nm.pressure, nm.altitude;
    var s1 := st.(lines := st.lines + [LineTable.LineEntry(4, [p])]);
    var s2 := s1.(lines := s1.lines + [LineTable.LineEntry(5, [a])], errors := s1.errors + [Uninitialised(5, a)]);
    CleanScalar(st, p, 4);
    LineTable.LinesAppend(st.lines, [LineTable.LineEntry(4, [p])]);
    BareScalar(s1, a, 5);
    Chain2(Scalar(p, 4, true), Scalar(a, 5, false), st, s1, s2);
    AppendTwo(st.lines, LineTable.LineEntry(4, [p]), LineTable.LineEntry(5, [a]));
  }

  /** Lines 7 and 8: the second array's length is a variable. */
  lemma GlobalsTail(nm: Names, st: State)
    requires SingleFacts(nm)
    requires st.inGlobal && !st.inParam
    requires 7 !in LineTable.Lines(st.lines) && 8 !in LineTable.Lines(st.lines)
    ensures VisitAll(Lines7to8(nm), st)
            == st.(lines := st.lines + TailLines(nm),
                   errors := st.errors + [VariableLengthArray(8)])
  {
    var x, v := nm.arr, nm.vla;
    var s1 := st.(lines := st.lines + [LineTable.LineEntry(7, [x])]);
    var s2 := s1.(lines := s1.lines + [LineTable.LineEntry(8, [v])], errors := s1.errors + [VariableLengthArray(8)]);
    Arr(st, x);
    LineTable.LinesAppend(st.lines, [LineTable.LineEntry(7, [x])]);
    Vla(s1, v);
    Chain2(FixedArray(x), OpenArray(v), st, s1, s2);
    AppendTwo(st.lines, LineTable.LineEntry(7, [x]), LineTable.LineEntry(8, [v]));
  }

  /** Lines 2 to 8. */
  lemma GlobalsWalk(nm: Names, st: State)
    requires HeadFacts(nm) && SingleFacts(nm)
    requires st.inGlobal && !st.inParam && st.lines == []
    ensures VisitAll(Globals(nm), st)
            == st.(lines := GlobalTable(nm),
                   errors := st.errors + [NotLowercase(3, nm.roomTemp), NoGlobalPrefix(3, nm.roomTemp)]
                             + [NotLowercase(3, nm.invalidCamelCase), NoGlobalPrefix(3, nm.invalidCamelCase)]
                             + [Uninitialised(5, nm.altitude)] + [VariableLengthArray(8)])
  {
    VisitAllSplit(Lines2to3(nm) + Lines4to5(nm), Lines7to8(nm), st);
    VisitAllSplit(Lines2to3(nm), Lines4to5(nm), st);
    GlobalsHead(nm, st);
    var s3 := VisitAll(Lines2to3(nm), st);
    assert LineTable.Lines(s3.lines) == [2, 3];
    GlobalsMiddle(nm, s3);
    var s5 := VisitAll(Lines4to5(nm), s3);
    LineTable.LinesAppend(HeadTable(nm), MiddleLines(nm));
    GlobalsTail(nm, s5);
    AppendAssoc(HeadTable(nm), MiddleLines(nm), TailLines(nm));
  }

  // Lines 10 to 18: the two function definitions.

  lemma FunctionParams(nm: Names, p: State)
    requires ParamFacts(nm) && p.inParam
    ensures Visit(Params(nm), p) == p
  {
    var args := Params(nm);
    VisitAll2(args.kids[0], args.kids[1], p);
    QuietParam(nm.arrParam, 10, args.kids[0].typ, p);
    QuietParam(nm.strParam, 10, args.kids[1].typ, p);
  }

  /** A definition with parameters walks them as parameters, then its body, outside file scope. */
  lemma ParamsDef(d: Node, body: seq<Node>, st: State)
    requires d.Decl? && d.typ.FuncDecl? && d.typ.args.Some?
    ensures Visit(FuncDef(d, body), st)
            == VisitAll(body, Visit(d.typ.args.value, st.(inGlobal := false, inParam := true)).(inParam := st.inParam))
               .(inGlobal := st.inGlobal)
  {
    assert Visit(FuncDef(d, body), st) == VisitFuncDef(FuncDef(d, body), st);
  }

  /** A definition without parameters walks its body outside file scope. */
  lemma NoParamsDef(d: Node, body: seq<Node>, st: State)
    requires d.Decl? && d.typ.FuncDecl? && d.typ.args.None?
    ensures Visit(FuncDef(d, body), st) == VisitAll(body, st.(inGlobal := false)).(inGlobal := st.inGlobal)
  {
    assert Visit(FuncDef(d, body), st) == VisitFuncDef(FuncDef(d, body), st);
  }

  /** `function` reports nothing: its parameters are well named fixed-size
      arrays, and its body declares nothing. */
  lemma FunctionWalk(nm: Names, st: State)
    requires ParamFacts(nm)
    requires st.inGlobal && !st.inParam
    ensures Visit(FunctionDef(nm), st) == st
  {
    var f := FunctionDef(nm);
    ParamsDef(f.decl, f.body, st);
    FunctionParams(nm, st.(inGlobal := false, inParam := true));
    assert NoDeclAll(f.body);
    PlainWalkAll(f.body, st.(inGlobal := false));
  }

  lemma MainBody(nm: Names, b0: State)
    requires MainFacts(nm)
    requires !b0.inGlobal && !b0.inParam
    requires 15 !in LineTable.Lines(b0.lines) && 16 !in LineTable.Lines(b0.lines)
    ensures VisitAll(MainDecls(nm), b0)
            == b0.(lines := b0.lines + MainLines(nm),
                   errors := b0.errors + [NotLowercase(15, nm.localVar)] + [Uninitialised(16, nm.a)])
  {
    var l, a, b := nm.localVar, nm.a, nm.b;
    var s1 := b0.(lines := b0.lines + [LineTable.LineEntry(15, [l])], errors := b0.errors + [NotLowercase(15, l)]);
    var s2 := s1.(lines := s1.lines + [LineTable.LineEntry(16, [a])], errors := s1.errors + [Uninitialised(16, a)]);
    var s3 := s2.(lines := s1.lines + [LineTable.LineEntry(16, [a, b])]);
    CasedLocal(b0, l, 15);
    LineTable.LinesAppend(b0.lines, [LineTable.LineEntry(15, [l])]);
    BareLocal(s1, a, 16);
    CleanLocalJoins(s2, s1.lines, a, b, 16);
    Chain3(Scalar(l, 15, true), Scalar(a, 16, false), Scalar(b, 16, true), b0, s1, s2, s3);
    AppendTwo(b0.lines, LineTable.LineEntry(15, [l]), LineTable.LineEntry(16, [a, b]));
  }

  /** A body of declarations followed by a statement without one. */
  lemma DeclsThenPlain(ds: seq<Node>, p: Node, st: State)
    requires NoDecl(p)
    ensures VisitAll(ds + [p], st) == VisitAll(ds, st)
  {
    var s1 := VisitAll(ds, st);
    VisitAllSplit(ds, [p], st);
    PlainWalk(p, s1);
    VisitAllCons(p, [], s1);
  }

  /** `main` reports its upper-case local and its uninitialised one. */
  lemma MainWalk(nm: Names, st: State)
    requires MainFacts(nm)
    requires st.inGlobal && !st.inParam
    requires 15 !in LineTable.Lines(st.lines) && 16 !in LineTable.Lines(st.lines)
    ensures Visit(MainFn(nm), st)
            == st.(lines := st.lines + MainLines(nm),
                   errors := st.errors + [NotLowercase(15, nm.localVar)] + [Uninitialised(16, nm.a)])
  {
    var m := MainFn(nm);
    var b0 := st.(inGlobal := false);
    NoParamsDef(m.decl, m.body, st);
    DeclsThenPlain(MainDecls(nm), Other([Constant]), b0);
    MainBody(nm, b0);
  }

  lemma FunctionsWalk(nm: Names, st: State)
    requires ParamFacts(nm) && MainFacts(nm)
    requires st.inGlobal && !st.inParam
    requires 15 !in LineTable.Lines(st.lines) && 16 !in LineTable.Lines(st.lines)
    ensures VisitAll([FunctionDef(nm), MainFn(nm)], st)
            == st.(lines := st.lines + MainLines(nm),
                   errors := st.errors + [NotLowercase(15, nm.localVar)] + [Uninitialised(16, nm.a)])
  {
    VisitAll2(FunctionDef(nm), MainFn(nm), st);
    FunctionWalk(nm, st);
    MainWalk(nm, st);
  }

  /** The walk over the whole program, before the final pass. */
  lemma ProgramWalk(nm: Names, st: State)
    requires Facts(nm)
    requires st.inGlobal && !st.inParam && st.lines == []
    ensures VisitAll(SampleOf(nm).kids, st)
            == st.(lines := FinalTable(nm),
                   errors := st.errors + [NotLowercase(3, nm.roomTemp), NoGlobalPrefix(3, nm.roomTemp)]
                             + [NotLowercase(3, nm.invalidCamelCase), NoGlobalPrefix(3, nm.invalidCamelCase)]
                             + [Uninitialised(5, nm.altitude)] + [VariableLengthArray(8)]
                             + [NotLowercase(15, nm.localVar)] + [Uninitialised(16, nm.a)])
  {
    VisitAllSplit(Globals(nm), [FunctionDef(nm), MainFn(nm)], st);
    GlobalsWalk(nm, st);
    var s7 := VisitAll(Globals(nm), st);
    assert LineTable.Lines(s7.lines) == [2, 3, 4, 5, 7, 8];
    FunctionsWalk(nm, s7);
  }

  /** A line holding two names yields one message per name. */
  lemma PairReport(l: int, p: string, q: string)
    ensures LineTable.LineReport(LineTable.LineEntry(l, [p, q])) == [SharedLine(l, p), SharedLine(l, q)]
  {
    var r := LineTable.LineReport(LineTable.LineEntry(l, [p, q]));
    assert |r| == 2 && r[0] == SharedLine(l, p) && r[1] == SharedLine(l, q);
  }

  /** Lines holding one name each yield nothing. */
  lemma {:induction false} SinglesReport(t: LineTable.Table)
    requires forall i :: 0 <= i < |t| ==> |t[i].names| == 1
    ensures LineTable.Report(t) == []
  {
    if t != [] {
      SinglesReport(t[1..]);
    }
  }

  /** A one-entry table reports what its entry reports. */
  lemma OneReport(e: LineTable.LineEntry)
    ensures LineTable.Report([e]) == LineTable.LineReport(e)
  {
    assert [e][1..] == [];
  }

  lemma HeadReport(nm: Names)
    ensures LineTable.Report(HeadTable(nm)) == [SharedLine(3, nm.roomTemp), SharedLine(3, nm.invalidCamelCase)]
  {
    var e2 := LineTable.LineEntry(2, [nm.temperature]);
    var e3 := LineTable.LineEntry(3, [nm.roomTemp, nm.invalidCamelCase]);
    assert HeadTable(nm) == [e2] + [e3];
    LineTable.ReportAppend([e2], [e3]);
    SinglesReport([e2]);
    OneReport(e3);
    PairReport(3, nm.roomTemp, nm.invalidCamelCase);
  }

  lemma MainReport(nm: Names)
    ensures LineTable.Report(MainLines(nm)) == [SharedLine(16, nm.a), SharedLine(16, nm.b)]
  {
    var e15 := LineTable.LineEntry(15, [nm.localVar]);
    var e16 := LineTable.LineEntry(16, [nm.a, nm.b]);
    assert MainLines(nm) == [e15] + [e16];
    LineTable.ReportAppend([e15], [e16]);
    SinglesReport([e15]);
    OneReport(e16);
    PairReport(16, nm.a, nm.b);
  }

  /** The final pass over the sample's table: lines 3 and 16 hold two names each. */
  lemma FinalTableReport(nm: Names)
    ensures LineTable.Report(FinalTable(nm))
            == [SharedLine(3, nm.roomTemp), SharedLine(3, nm.invalidCamelCase), SharedLine(16, nm.a), SharedLine(16, nm.b)]
  {
    LineTable.ReportAppend(GlobalTable(nm), MainLines(nm));
    LineTable.ReportAppend(HeadTable(nm), SingleLines(nm));
    HeadReport(nm);
    SinglesReport(SingleLines(nm));
    MainReport(nm);
  }

  /**
   The sample program, for any names with the sample's facts: the two
   badly cased globals on line 3 that lack the prefix, the uninitialised
   global, the variable-length array, the cased local, the uninitialised
   local, and the two shared lines, in that order. The parameters of
   `function` and the names of both functions are not reported.
   */
  lemma SampleReport(nm: Names)
    requires Facts(nm)
    ensures CheckUnit(SampleOf(nm)).errors
            == [NotLowercase(3, nm.roomTemp), NoGlobalPrefix(3, nm.roomTemp),
                NotLowercase(3, nm.invalidCamelCase), NoGlobalPrefix(3, nm.invalidCamelCase),
                Uninitialised(5, nm.altitude),
                VariableLengthArray(8),
                NotLowercase(15, nm.localVar),
                Uninitialised(16, nm.a),
                SharedLine(3, nm.roomTemp), SharedLine(3, nm.invalidCamelCase),
                SharedLine(16, nm.a), SharedLine(16, nm.b)]
  {
    var root := SampleOf(nm);
    assert Visit(root, Start()) == VisitAll(root.kids, Start());
    ProgramWalk(nm, Start());
    FinalTableReport(nm);
    SampleMessages(nm, Start().errors);
  }

  lemma SampleMessages(nm: Names, e: seq<Message>)
    requires e == []
    ensures e + [NotLowercase(3, nm.roomTemp), NoGlobalPrefix(3, nm.roomTemp)]
              + [NotLowercase(3, nm.invalidCamelCase), NoGlobalPrefix(3, nm.invalidCamelCase)]
              + [Uninitialised(5, nm.altitude)] + [VariableLengthArray(8)]
              + [NotLowercase(15, nm.localVar)] + [Uninitialised(16, nm.a)]
              + [SharedLine(3, nm.roomTemp), SharedLine(3, nm.invalidCamelCase), SharedLine(16, nm.a), SharedLine(16, nm.b)]
            == [NotLowercase(3, nm.roomTemp), NoGlobalPrefix(3, nm.roomTemp),
                NotLowercase(3, nm.invalidCamelCase), NoGlobalPrefix(3, nm.invalidCamelCase),
                Uninitialised(5, nm.altitude),
                VariableLengthArray(8),
                NotLowercase(15, nm.localVar),
                Uninitialised(16, nm.a),
                SharedLine(3, nm.roomTemp), SharedLine(3, nm.invalidCamelCase),
                SharedLine(16, nm.a), SharedLine(16, nm.b)]
  {
  }
}
