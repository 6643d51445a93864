/**
 The already-parsed C syntax tree the checker walks, and the violation
 messages it reports.

 Only the node kinds the checker treats differently get their own
 constructor; every other pycparser node is `Other`, whose `kids` are its
 children in the order the generic visitor walks them. Type nodes are
 ordinary nodes, so the identifiers inside an array dimension are visited
 like any other child.
 */
module Ast {

  datatype Option<+T> = None | Some(value: T)

  datatype Node =
      /** A declaration; `typ` is visited first, then `init`, then the
          bit-field width `bitsize`. */
    | Decl(name: Option<string>, line: int, typ: Node, init: Option<Node>, bitsize: Option<Node>)
      /** A reference to a name. */
    | ID(ref: string)
      /** A literal constant. */
    | Constant
      /** A `{ ... }` block. */
    | Compound(items: seq<Node>)
      /** A function definition; `body` holds the items of its block. */
    | FuncDef(decl: Node, body: seq<Node>)
      /** An array type; the element type is visited before the dimension. */
    | ArrayDecl(elem: Node, dim: Option<Node>)
      /** A function type; `args` is the parameter-list node, visited before `ret`. */
    | FuncDecl(args: Option<Node>, ret: Node)
      /** Any other node, with its children in visiting order. */
    | Other(kids: seq<Node>)

  /** One reported violation. Each constructor is one rule of the standard. */
  datatype Message =
    | NotLowercase(line: int, name: string)        // rule I.A
    | NoGlobalPrefix(line: int, name: string)      // rule I.D
    | Uninitialised(line: int, name: string)       // rule XII.B
    | VariableLengthArray(line: int)               // rule XII.D
    | NotLocal(line: int, name: string)            // rule XII.C
    | SharedLine(line: int, name: string)          // rule XII.A
  {
    /** The ledger key this message is reported under. */
    function Rule(): string {
      match this
      case NotLowercase(_, _) => "I.A"
      case NoGlobalPrefix(_, _) => "I.D"
      case Uninitialised(_, _) => "XII.B"
      case VariableLengthArray(_) => "XII.D"
      case NotLocal(_, _) => "XII.C"
      case SharedLine(_, _) => "XII.A"
    }
  }

  /** The ledger keys of a message list, in order. */
  function RuleKeys(ms: seq<Message>): (r: seq<string>)
    ensures |r| == |ms|
    ensures forall i :: 0 <= i < |ms| ==> r[i] == ms[i].Rule()
  {
    if ms == [] then [] else [ms[0].Rule()] + RuleKeys(ms[1..])
  }

  lemma {:induction false} RuleKeysAppend(a: seq<Message>, b: seq<Message>)
    ensures RuleKeys(a + b) == RuleKeys(a) + RuleKeys(b)
  {
    var r := RuleKeys(a + b);
    var s := RuleKeys(a) + RuleKeys(b);
    assert |r| == |s|;
    forall i | 0 <= i < |r| ensures r[i] == s[i] {
      if i < |a| { assert (a + b)[i] == a[i]; } else { assert (a + b)[i] == b[i - |a|]; }
    }
  }

  /** A dimension counts as fixed only when it is present and a literal constant. */
  predicate FixedDim(dim: Option<Node>) {
    dim.Some? && dim.value.Constant?
  }

  /**
   The variable-length-array test: walk down the chain of array types,
   stopping with true at the first missing or non-literal dimension, and
   with false at the first node that is not an array type.
   */
  function IsVla(t: Node): bool {
    match t
    case ArrayDecl(elem, dim) =>
      if dim.None? then true
      else if !dim.value.Constant? then true
      else IsVla(elem)
    case _ => false
  }

  /** The dimensions of the leading chain of array types, outermost first. */
  function Dims(t: Node): (r: seq<Option<Node>>)
    ensures t.ArrayDecl? <==> |r| > 0
  {
    match t
    case ArrayDecl(elem, dim) => [dim] + Dims(elem)
    case _ => []
  }

  /** A declared type is a variable-length array exactly when some level of
      its array chain has a missing or non-constant dimension. */
  lemma {:induction false} IsVlaIffSomeOpenDim(t: Node)
    ensures IsVla(t) <==> exists i :: 0 <= i < |Dims(t)| && !FixedDim(Dims(t)[i])
  {
    match t
    case ArrayDecl(elem, dim) =>
      IsVlaIffSomeOpenDim(elem);
      var d := Dims(t);
      assert d == [dim] + Dims(elem);
      if !FixedDim(dim) {
        assert IsVla(t) && !FixedDim(d[0]);
      } else if IsVla(elem) {
        var j :| 0 <= j < |Dims(elem)| && !FixedDim(Dims(elem)[j]);
        assert !FixedDim(d[j + 1]);
      } else {
        forall i | 0 <= i < |d| ensures FixedDim(d[i]) {
          if i > 0 { assert d[i] == Dims(elem)[i - 1]; }
        }
      }
    case _ =>
  }

  /** `int m[3][4]`: every level constant, so not a variable-length array. */
  lemma AllConstantMatrixIsNotVla(base: Node)
    requires !base.ArrayDecl?
    ensures !IsVla(ArrayDecl(ArrayDecl(base, Some(Constant)), Some(Constant)))
  {
    assert !IsVla(base);
    assert !IsVla(ArrayDecl(base, Some(Constant)));
  }

  /** `int m[3][n]` and `char s[]`: an open level anywhere makes it one. */
  lemma OpenInnerDimIsVla(base: Node, n: string)
    ensures IsVla(ArrayDecl(ArrayDecl(base, Some(ID(n))), Some(Constant)))
    ensures IsVla(ArrayDecl(base, None))
  {
  }
}
