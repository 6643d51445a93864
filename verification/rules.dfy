/**
 The per-declaration rules both checker variants apply to one named
 declaration: I.A lower-case names, I.D the `g_` prefix for globals,
 XII.B mandatory initialisation and XII.D no variable-length arrays.
 The variants differ only in their lower-case test, which is passed in.
 */
module Rules {
  import opened Ast
  import Text

  /** The marker every global variable's name must start with. */
  const GlobalPrefix: string := "g_"

  /**
   The messages for one declaration, in the order the checker emits them.
   Each rule is decided on its own: none of them hides another.
   */
  function DeclReport(name: string, line: int, lowercaseOk: bool, inGlobal: bool,
                      inParam: bool, initialised: bool, typ: Node): seq<Message>
  {
    (if !lowercaseOk then [NotLowercase(line, name)] else [])
    + (if inGlobal && !inParam && !Text.StartsWith(name, GlobalPrefix) then [NoGlobalPrefix(line, name)] else [])
    + (if !inParam && !initialised then [Uninitialised(line, name)] else [])
    + (if IsVla(typ) then [VariableLengthArray(line)] else [])
  }

  /** Each rule is decided on its own: none of them hides another. */
  lemma DeclReportRules(name: string, line: int, lowercaseOk: bool, inGlobal: bool,
                        inParam: bool, initialised: bool, typ: Node)
    ensures var r := DeclReport(name, line, lowercaseOk, inGlobal, inParam, initialised, typ);
            && (NotLowercase(line, name) in r <==> !lowercaseOk)
            && (NoGlobalPrefix(line, name) in r <==> inGlobal && !inParam && !Text.StartsWith(name, GlobalPrefix))
            && (Uninitialised(line, name) in r <==> !inParam && !initialised)
            && (VariableLengthArray(line) in r <==> IsVla(typ))
  {
  }

  /** Nothing but those four messages, and none of them twice. */
  lemma DeclReportShape(name: string, line: int, lowercaseOk: bool, inGlobal: bool,
                        inParam: bool, initialised: bool, typ: Node)
    ensures var r := DeclReport(name, line, lowercaseOk, inGlobal, inParam, initialised, typ);
            && (forall m :: m in r ==>
                  m in [NotLowercase(line, name), NoGlobalPrefix(line, name),
                        Uninitialised(line, name), VariableLengthArray(line)])
            && forall i, j :: 0 <= i < j < |r| ==> r[i] != r[j]
  {
  }

  /** A parameter is never told to carry the global prefix or an initialiser. */
  lemma ParameterOnlyNamingAndVla(name: string, line: int, ok: bool, g: bool, init: bool, typ: Node)
    ensures forall m :: m in DeclReport(name, line, ok, g, true, init, typ) ==>
              m.NotLowercase? || m.VariableLengthArray?
  {
  }
}
