# C coding-standard checker: a Dafny model

The repository grades C submissions against a course coding standard.
The macro table of the preprocessed program is checked for rule I.C
(constants upper-case). pycparser's syntax tree of header + source is
walked once by a `VariableDefinitionChecker`, which enforces:

- I.A: variable names are lower-case;
- I.D: globals start with `g_`;
- XII.A: one variable per line;
- XII.B: every non-parameter is initialised;
- XII.C: a variable is declared as locally as possible;
- XII.D: no variable-length arrays.

Each finding except a locality (XII.C) finding flips one rule of a
`Grade` ledger to failing. The ledger's score is two points off per
failing rule.

The model covers:

- the current checker, `py_src/full_stack_parser.py`. It is the module
  `FullStack`, with `Scope` for its block frames and `LineTable` for the
  line table. The driver `whole_check` is `FullStack.WholeCheck`.
- the earlier checker, `main_parser.py`, as the module `Legacy`. It has
  no header offset, no locality rule and no grade, and its casing test
  compares a name with its lower-cased form.
- the ledger, `py_src/grader.py`, as the module `Grader`.

The rules both checkers apply to one declaration are in `Rules`. The
syntax tree and the messages are in `Ast`, and the string tests are in
`Text`.

The proofs are in several modules:

- `FullStackProofs` relates the walk to an event history of each block.
  It proves the locality verdict, the invariant every walk keeps, and the
  driver's ledger.
- `LegacyProofs` proves that the current checker extends the earlier one
  by exactly the locality messages.
- `LegacyExamples` computes the earlier checker's report on the sample
  program in `main_parser.py`.
- `FullStackExamples` works the locality rule and the prototype case on
  small programs.

Rule XII.C asks that a variable be declared in the innermost block
enclosing all its uses. The code approximates this, and the model follows
the code. Other behaviours of the code that a reader of the rules might not expect
are modelled as written:

- A reference marks a name only in the innermost open block's frame. No
  outer frame is searched, and there is no least-common-ancestor
  computation. A variable used only in nested blocks, including two
  sibling blocks, is therefore reported (`FullStackExamples.SiblingUsesAreReported`).
- The verdict is a used/unused flag per entry. A reference that comes
  before the declaration does not count.
- Locality findings (`XII.C`) are emitted but are not a graded rule, so
  they never change the ledger (`Grader.LocalityIsNotGraded`).
- A ledger key that is not a graded rule is ignored after a printed
  notice.
- The macro check does not enforce the two-character minimum that the
  comment on rule I.C states. `N` passes.
- On a parse failure the driver returns status 1 with no messages. The
  I.C findings of the macro check, which runs first, stay in the ledger.
- Typedef names are never checked, because pycparser's `Typedef` is not
  a `Decl` node.
- The lower-case test is Python's `islower`, which rejects a name with no
  lower-case letter such as `_1`. The earlier checker's `name != name.lower()`
  accepts it (`Text.IsLowerVersusLowerFixed`).
- A prototype at file scope (`int f(int X);`) is a `Decl` whose type is
  walked generically. Its name and its parameters are therefore checked
  as globals (`FullStackExamples.PrototypeCheckedAsGlobals`).

## Model

| member | source | states |
|---|---|---|
| Ast.RuleKeys | py_src/full_stack_parser.py:76-94 | each message's ledger key is the rule it reports, one key per message in order |
| Ast.IsVlaIffSomeOpenDim | py_src/full_stack_parser.py:99-108 | the array test holds iff some level of the declared type's array chain has a missing or non-literal dimension |
| Ast.AllConstantMatrixIsNotVla | py_src/full_stack_parser.py:99-108 | `T m[3][4]`, constant at every level, is not a variable-length array |
| Ast.OpenInnerDimIsVla | py_src/full_stack_parser.py:102-107 | `T m[3][n]` (open inner level) and `T s[]` (missing dimension) are variable-length arrays |
| Text.Lower | main_parser.py:21 | lower-casing keeps the length and maps each upper-case ASCII letter to its lower-case letter, leaving other characters alone |
| Text.LowerFixesIffNoUpper | main_parser.py:21 | a name equals its lower-cased form iff it holds no upper-case letter |
| Text.IsLowerVersusLowerFixed | py_src/full_stack_parser.py:76 | `islower` holds iff the name equals its lower-cased form and holds a lower-case letter; `_1` separates the two tests |
| Rules.DeclReportRules | py_src/full_stack_parser.py:75-94 | each of I.A, I.D, XII.B and XII.D is reported for a declaration iff its own condition holds, independently of the others |
| Rules.DeclReportShape | py_src/full_stack_parser.py:75-94 | a declaration yields only those four messages, none of them twice |
| Rules.ParameterOnlyNamingAndVla | py_src/full_stack_parser.py:81-89 | a parameter can only be told about casing or array length, never about the prefix or the initialiser |
| Scope.DeclareSetdefault | py_src/full_stack_parser.py:68-69 | a declaration adds the name once, as unused, with its line; a name already present keeps its first entry; names stay unique |
| Scope.Mark | py_src/full_stack_parser.py:56-57 | a reference sets the used flag of the entry of that name and changes nothing else |
| Scope.UnusedReportExact | py_src/full_stack_parser.py:43-48 | a closing block reports exactly its unmarked entries, each once when names are unique |
| Scope.UnusedReportPositions | py_src/full_stack_parser.py:43-48 | a closing block reports one message per unmarked entry, and the message for an unmarked entry comes right after those of the unmarked entries before it |
| Scope.UnusedReportInOrder | py_src/full_stack_parser.py:43-48 | of two unmarked entries, the earlier-declared one's locality message comes first, as iterating the frame in insertion order gives |
| Scope.ReplayFromEmpty | py_src/full_stack_parser.py:52-73 | the frame a block builds has an entry for a name iff it was declared, keeps the line of the first declaration, and is marked iff the name was referenced after a declaration |
| Scope.LocalityVerdict | py_src/full_stack_parser.py:37-57 | on a block's event history: `x` is reported at `l` iff `l` is its first declaration line and no reference to `x` followed it; no report repeats |
| LineTable.AddRecords | py_src/full_stack_parser.py:72-73 | recording a name appends it to that line's list and opens the line at the end of the table when new; lines stay unique |
| LineTable.LineReport | py_src/full_stack_parser.py:133-136 | a line with one name yields nothing; a line with several yields one message per name in order |
| LineTable.ReportPerLine | py_src/full_stack_parser.py:130-136 | the final pass reports, for each line, one message per recorded name when it holds more than one, and nothing otherwise |
| LineTable.ReportOnlyShared | py_src/full_stack_parser.py:130-136 | every message of the final pass is a one-per-line message for a recorded line |
| LineTable.ReportAppended | py_src/full_stack_parser.py:130-136 | what follows the earlier messages once the report is appended is made only of one-per-line messages for recorded lines, and, with one entry per line, names every name of a line in order if there are several and nothing otherwise |
| Grader.InitGrade | py_src/grader.py:5-14 | the initial ledger has exactly the six graded rules, all passing |
| Grader.NewGrade | py_src/grader.py:16-20 | a new grade starts with that ledger, no deduction and the given user name |
| Grader.UpdateItem | py_src/grader.py:21-25 | reporting a graded rule fails it and leaves every other entry alone; an unknown key leaves the grade unchanged |
| Grader.UpdateAllFails | py_src/grader.py:21-25 | after a run of reports a rule passes iff it passed before and was not reported, so order and repetition do not matter |
| Grader.FreshLedgerFailsExactlyReported | py_src/grader.py:13-25 | from a new grade, a graded rule fails iff it was reported |
| Grader.UpdateItemIdempotent | py_src/grader.py:21-23 | reporting the same rule twice equals reporting it once |
| Grader.LocalityIsNotGraded | py_src/grader.py:5-12 | `XII.C` is not a graded rule, so reporting it never changes a ledger over the graded rules |
| Grader.FailingKeys | py_src/grader.py:28-29 | there are never more failing rules than ledger entries, so the deduction is at most two points per entry |
| Grader.UpdateScore | py_src/grader.py:26-30 | the deduction is recomputed from zero as two points per failing rule, the ledger untouched |
| Grader.ScoreBounds | py_src/grader.py:26-30 | over the graded rules the deduction lies between -12 and 0 |
| FullStack.CheckDecl | py_src/full_stack_parser.py:66-94 | checking a source-file declaration changes neither the global nor the parameter flag, and opens or closes no block |
| FullStack.CheckDeclReports | py_src/full_stack_parser.py:75-93 | at the source-relative line, a casing message is appended iff `Text.IsLower` (Python's `islower`) rejects the name, a prefix message iff it is a file-scope non-parameter without `g_`, an initialisation message iff it is not a parameter and has no initialiser, a VLA message iff its type is a variable-length array |
| FullStack.CheckDeclEffect | py_src/full_stack_parser.py:66-73 | a source-file declaration joins the list of its source-relative line unless it is a parameter; a local joins the innermost frame as a setdefault does (a new entry at that line, not yet used, only if the name is absent; earlier entries and outer frames unchanged), and otherwise the stack is unchanged |
| FullStack.VisitId | py_src/full_stack_parser.py:52-58 | a reference changes only the used flags of the innermost frame, setting exactly those entries named by a non-empty name; with no open block nothing changes |
| FullStack.Visit | py_src/full_stack_parser.py:37-128 | every walk restores both flags, leaves the outer frames and the stack depth as found, and only appends messages |
| FullStack.VisitDecl | py_src/full_stack_parser.py:61-97 | a declaration walk restores the flags and the frames below the innermost, and only appends messages |
| FullStack.VisitDeclKids | py_src/full_stack_parser.py:96-97 | walking a declaration's children (type, initialiser, bit-field width) keeps the flags and outer frames and only appends messages |
| FullStack.VisitFuncDef | py_src/full_stack_parser.py:110-128 | a function definition restores both flags and the stack shape after its parameters and body are walked |
| FullStack.VisitCompound | py_src/full_stack_parser.py:37-49 | a block leaves the stack exactly as it found it, and the flags, and only appends messages |
| FullStack.Finalize | py_src/full_stack_parser.py:130-136 | the final pass only appends messages: the table, the stack and the flags are kept |
| FullStack.FinalizeAppendsReport | py_src/full_stack_parser.py:130-136 | the final pass appends the line table's report, and every message it appends is a one-per-line message for a recorded line |
| FullStack.FinalizeReportsSharedLines | py_src/full_stack_parser.py:130-136 | when the table has one entry per line, the messages appended for line `l` name every name recorded there, in order, if there are several, and there are none otherwise |
| FullStack.CheckUnit | py_src/full_stack_parser.py:177-179 | a whole check ends at file scope, outside any parameter list, with no open block |
| FullStack.FlaggedMacros | py_src/full_stack_parser.py:160-161 | a macro is flagged iff it is not predefined and not upper-case; there is no length test |
| FullStack.WholeCheck | py_src/full_stack_parser.py:138-189 | status 0 iff the parser produced a tree and 1 iff it did not; a parse failure yields no messages and keeps the macro check's ledger; the pass flag, which only decides whether a clean run announces a pass, is false iff some macro was flagged |
| FullStackProofs.VisitTop | py_src/full_stack_parser.py:52-73 | a walk changes the innermost frame exactly as replaying its events (declarations and references at that level) does |
| FullStackProofs.BlockVerdict | py_src/full_stack_parser.py:37-49 | a block's closing messages end its output and are the replayed frame's report, so they come in declaration order; `x` is reported at `l` iff `l` is its first declaration line there and no reference at the block's own level followed; no report repeats |
| FullStackProofs.CheckUnitSound | py_src/full_stack_parser.py:61-136 | after a whole check the ledger is the ledger fed with the messages' rules in order, the line table has unique lines, and every line held or reported is at least 1 |
| FullStackProofs.ParamsQuiet | py_src/full_stack_parser.py:117-122 | inside a parameter list nothing is recorded for XII.A or XII.C, and only I.A and XII.D can fire |
| FullStackProofs.FileScopeParamsQuiet | py_src/full_stack_parser.py:117-122 | a file-scope function definition with an empty body records no line and emits only casing and array messages for its parameter list |
| FullStackProofs.UnnamedDeclSkipped | py_src/full_stack_parser.py:62-63 | an anonymous declaration is skipped with all its children |
| FullStackProofs.HeaderDeclOnlyWalksChildren | py_src/full_stack_parser.py:65-97 | a header declaration is not checked or recorded, but its children are walked |
| FullStackProofs.FuncDefOwnDeclIgnored | py_src/full_stack_parser.py:110-125 | a function definition's own name, line, initialiser and bit-field width do not affect the check |
| FullStackProofs.MacroCheckVerdict | py_src/full_stack_parser.py:159-164 | predefined macros are never flagged, any other is flagged iff not upper-case, and the ledger fails I.C once iff some macro is flagged |
| FullStackProofs.WholeCheckLedger | py_src/full_stack_parser.py:138-189 | from a new grade a graded rule fails iff it is I.C with a macro flagged or some emitted message carries it; every emitted line is at least 1 |
| Legacy.CheckDecl | main_parser.py:15-35 | checking a declaration keeps both flags and only appends messages |
| Legacy.CheckDeclRules | main_parser.py:15-35 | a casing message is appended iff the name differs from its lower-cased form, a prefix message iff it is a file-scope non-parameter without `g_`, an initialisation message iff it is not a parameter and has no initialiser, a VLA message iff its type is a variable-length array; the name joins its line's list unless it is a parameter |
| Legacy.Visit | main_parser.py:11-67 | every walk restores both flags and only appends messages |
| Legacy.VisitDecl | main_parser.py:11-38 | a declaration walk restores the flags and only appends messages |
| Legacy.VisitDeclKids | main_parser.py:37-38 | walking a declaration's children (type, initialiser, bit-field width) keeps the flags and only appends messages |
| Legacy.VisitFuncDef | main_parser.py:51-67 | a function definition restores both flags after its parameters and body |
| Legacy.Finalize | main_parser.py:69-74 | the final pass only appends messages: the table and the flags are kept |
| Legacy.FinalizeAppendsReport | main_parser.py:69-74 | the final pass appends the line table's report, and every message it appends is a one-per-line message for a recorded line |
| Legacy.FinalizeReportsSharedLines | main_parser.py:69-74 | when the table has one entry per line, the messages appended for line `l` name every name recorded there, in order, if there are several, and there are none otherwise |
| Legacy.CheckUnit | main_parser.py:103-105 | a whole check ends at file scope outside any parameter list |
| LegacyProofs.VisitLines | main_parser.py:15-18 | the line table never holds a line twice |
| LegacyProofs.SharedLinesVerdict | main_parser.py:69-74 | the final pass reports, for each line, one message per name there when it holds more than one, and nothing otherwise |
| LegacyProofs.ParamsQuiet | main_parser.py:56-61 | inside a parameter list the line table is untouched and only I.A and XII.D can fire |
| LegacyProofs.FileScopeParamsQuiet | main_parser.py:56-61 | a file-scope function definition with an empty body records no line and emits only casing and array messages for its parameter list |
| LegacyProofs.CurrentExtendsEarlier | main_parser.py:11-74 | with no header, every declaration on a line from 1 on and names on which the casing tests agree, the earlier checker's messages are the current checker's minus the locality messages, in order, over the same line table |
| LegacyExamples.SampleReport | main_parser.py:77-105 | on the sample program the earlier checker reports exactly the twelve messages for lines 3, 5, 8, 15 and 16, in emission order |
| LegacyExamples.SampleProgramReport | main_parser.py:77-105 | the sample program with its own names yields exactly those twelve messages |
| FullStackExamples.SameBlockUseIsLocal | py_src/full_stack_parser.py:52-57 | a variable used in its own block is not reported |
| FullStackExamples.NestedUseOnlyIsReported | py_src/full_stack_parser.py:41-48 | a variable used only inside a nested block is reported at its line |
| FullStackExamples.SiblingUsesAreReported | py_src/full_stack_parser.py:37-57 | a variable used in two sibling nested blocks is still reported |
| FullStackExamples.PrototypeCheckedAsGlobals | py_src/full_stack_parser.py:61-97 | a prototype's name and parameter are both checked as uninitialised globals and share their line |

## Left out

- The preprocessor and the C parser are not modelled. The model starts from the macro names and from the parse result, an `Option` of a tree in which `None` stands for a parse failure.
- File reading is not modelled. The header's line count `hdr` is a parameter; its computation from the header text is not part of this model.
- Printing is not modelled. Messages are a datatype with a line and a name, not formatted strings. The "rule not found" notice of `update_item` is not modelled, nor is the final summary print.
- The string tests are ASCII-only. Python's Unicode case rules are not modelled.
- `Legacy.CheckDecl`: the `node.coord` guard at main_parser.py:15 is not modelled, because every `Decl` the parser produces carries a line.
- `Grade.username` is carried as given; nothing in the core reads it.
- pycparser node kinds other than declarations, references, constants, blocks, function definitions, array types and function types are one generic node with its children in visiting order.
- The `__main__` block and the pandas import of grader.py are not modelled. Neither is the `main` driver of main_parser.py, except for its sample program.
- A locality rule based on the innermost block enclosing every use is not modelled, because py_src/full_stack_parser.py does not compute it.
