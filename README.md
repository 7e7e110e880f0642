# A verified model of the crablang toy compiler

This project models, in Dafny, the core of a tiny compiler written in
Rust: a character lexer, a statement parser, a flat semantic analyser and
three generations of x86-64 assembly emitters. Each emitter builds its text
by appending one line at a time. The repository holds several snapshots of
the compiler, and each one matches on its own program tree, so each module
here uses the tree its source file matches on.

| module | file | models |
|---|---|---|
| `Common` | common.dfy | `Option`, `Result`, source `Location` |
| `Strings` | strings.dfy | decimal rendering of counts, `format!("{}_{}", base, n)` and its injectivity |
| `AsmText` | asm_text.dfy | the emitted text as a sequence of lines (`stmt`, `label`, `comment`, `comment_emp`), their rendering, push/pop counting, jump targets |
| `LabelDecorator` | string_decorator.dfy | `StringDecorator`: a class over the counter map, with a ghost record of every label it has handed out |
| `ScopeEnv` | scope_env.dfy | `Env` of both code generators: the scope chain as a sequence of scope records (head first), lookup, registration, and the chain invariant |
| `Ast` | ast.dfy | the program tree of the code generators, and the compiler's errors |
| `StackExpr` | stack_expr.dfy | expression lowering (`rexp`, `term`, `ident`, `intlit`, `binary_operator`) as a function, its stack effect, and its errors |
| `BlockCodegen` | block_codegen.dfy | `Asm` of src/codegen/codegen.rs (blocks, `if`/`else`, labels): specification functions and the class proved against them |
| `BlockLabels` | block_labels.dfy | label bookkeeping of that generator: no label is defined twice |
| `BlockJumps` | block_jumps.dfy | every `jz`/`jmp` of a successful generation lands on a label defined further down |
| `FlatCodegen` | flat_codegen.dfy | `Asm::gen` of src/codegen.rs: one environment, no blocks, `comment_emp` headings |
| `SemanticAnalysis` | semantic_anal.dfy | `analyze`, `analyze_rexp`, `analyze_term` of src/semantic_anal.rs |
| `ParserTokens`, `StatementParser` | parser.dfy | `Parser` of src/parser.rs over a token stream with a cursor |
| `CharLexer` | lexer.dfy | `Lexer` of src/lexer.rs, `OPERATOR_MAPPING`, `KeywordType::from_str` |
| `TableAsmGen` | asmgen.dfy | `genasm` of src/asmgen.rs, driven by the analyser's symbol table |

Stateful code is modelled as classes with `modifies` clauses:
- the decorator's map;
- the environment's head scope;
- the emitters' line buffers;
- the parser's cursor and statement list;
- the lexer's `next_index`.

Each method is proved to do exactly what a specification function of its
inputs and old state says. Lemmas about those functions carry the
properties:
- stack discipline;
- label uniqueness;
- forward jumps;
- the shape of the prologue and epilogue;
- the error cases;
- the parser round trip;
- the analyser's slot layout;
- the lexer's maximal munch.

Both `Env` copies (src/codegen/codegen.rs:80-156 and
src/codegen.rs:78-154) behave identically and differ only in helper names,
so `ScopeEnv.Env` models both. The Model rows cite the newer copy; the
older copy's lines appear in the rows for `GetShadowCount`,
`RegisterSymbol` and `LookupNoneIff`.

## Model

| member | source | states |
|---|---|---|
| Strings.NatToString | src/codegen/string_decorator.rs:25 | the decimal spelling of a count is non-empty, all digits, and a single digit exactly for counts below ten |
| Strings.NatToStringInjective | src/codegen/string_decorator.rs:25 | different counts are spelled differently |
| Strings.UnderscoreIsLast | src/codegen/string_decorator.rs:25 | the `_` that `format!("{}_{}")` inserts is the last underscore of the result |
| Strings.DecoratedInjective | src/codegen/string_decorator.rs:25 | `base_N` determines both the base and N |
| Strings.DecoratedDistinct | src/codegen/string_decorator.rs:25 | one base with two different indices gives two different labels |
| AsmText.RenderAllAppend | src/codegen/codegen.rs:332-347 | the text of appended lines is the old text followed by theirs: emission is append-only |
| AsmText.AppendLine | src/codegen/codegen.rs:332-347 | one `stmt`/`label`/`comment` call adds exactly that line's fixed format (`"    s\n"`, `"s:\n"`, `"    ; s\n"`) |
| LabelDecorator.StringDecorator.Default | src/codegen/string_decorator.rs:8-14 | a new decorator has no entries and has issued no label, so every base starts at `base_0` |
| LabelDecorator.StringDecorator.Decorate | src/codegen/string_decorator.rs:30-33 | without changing state, `decorate(s)` returns `s_k`, where k is the stored index or 0; k differs from every label issued so far |
| LabelDecorator.StringDecorator.DecorateAndIncrement | src/codegen/string_decorator.rs:17-28 | returns what `decorate(s)` returned before the call; afterwards s's index is k+1 (1 when it was absent) and every other index is unchanged; the label is new and joins the issued set |
| LabelDecorator.StringDecorator.Increment | src/codegen/string_decorator.rs:35-40 | raises s's index by one (inserting 1 when absent) and changes no other index |
| LabelDecorator.RepeatedLabels | src/codegen/string_decorator.rs:17-28 | three calls on a new decorator return `s_0`, `s_1`, `s_2`, pairwise distinct |
| LabelDecorator.DecorateThenIncrement | src/codegen/string_decorator.rs:17-40 | `decorate_and_increment` has the same result and the same new map as `decorate` followed by `increment` |
| ScopeEnv.Registered | src/codegen/codegen.rs:130-141 | registering a name raises its shadow count by one (0 becomes 1) and no other count; raises the offset by 8; stores the symbol under `name_count` with the raised offset |
| ScopeEnv.Env.New | src/codegen/codegen.rs:81-88 | a root environment: one empty scope at offset 0 |
| ScopeEnv.Env.WithTail | src/codegen/codegen.rs:90-97 | a child scope is empty, starts at its parent's offset and has the parent's chain as its tail |
| ScopeEnv.Env.GetShadowCount | src/codegen/codegen.rs:108-113 | the head's count for a name, 0 when there is none; `src/codegen.rs:106-111` is the same |
| ScopeEnv.Env.GetShadowCountMut | src/codegen/codegen.rs:99-107 | returns the old count, inserting 0 when absent; no symbol, offset or lookup result changes |
| ScopeEnv.Env.RegisterSymbol | src/codegen/codegen.rs:130-142 | the head becomes `Registered(old head)`; `get_symbol(name)` now returns `name_<count+1>` at the new offset; every other name's lookup is unchanged; the chain invariant is kept; `src/codegen.rs:128-140` is the same |
| ScopeEnv.Env.Declare | src/codegen/codegen.rs:144-149 | registers an 8-byte uninitialised symbol; afterwards `get_symbol` finds it; other names are unchanged |
| ScopeEnv.Env.Initialize | src/codegen/codegen.rs:150-155 | registers an 8-byte initialised symbol; afterwards `get_symbol` finds it; other names are unchanged |
| ScopeEnv.LookupNoneIff | src/codegen/codegen.rs:115-128 | `get_symbol` returns `None` exactly when no scope of the chain holds the name's current generation `name_<count>`; `src/codegen.rs:113-126` is the same |
| ScopeEnv.LookupWitness | src/codegen/codegen.rs:115-128 | a found symbol comes from the first scope that holds the current generation, and no earlier scope holds it |
| ScopeEnv.UnregisteredFallsThrough | src/codegen/codegen.rs:115-128 | a name the head never registered is looked up in the parent chain |
| ScopeEnv.LookupRegistered | src/codegen/codegen.rs:130-141 | right after registration, lookup of the name returns the new symbol |
| ScopeEnv.LookupOtherRegistered | src/codegen/codegen.rs:130-141 | registration leaves the lookup of every other name unchanged |
| ScopeEnv.RegisterValid | src/codegen/codegen.rs:130-141 | registration keeps the chain invariant: each scope's symbols sit at distinct offsets above the offset its parent stood at when it was created, and no higher than its own offset |
| ScopeEnv.EmptyScopeValid | src/codegen/codegen.rs:90-97 | a child scope that starts at its parent's offset keeps the chain invariant |
| ScopeEnv.ChainOffsetsDistinct | src/codegen/codegen.rs:90-97 | in a valid chain, no two symbols, in the same scope or in different scopes, share an rbp offset |
| ScopeEnv.ChainFloorsDecrease | src/codegen/codegen.rs:90-97 | offsets never increase from the head toward the root |
| StackExpr.PushSlot | src/codegen/codegen.rs:422 | loading an identifier is a `push` |
| StackExpr.FirstUnresolvedNoneIff | src/codegen/codegen.rs:412-417 | no unresolved identifier exactly when every identifier has a visible symbol |
| StackExpr.ExpFailsOnFirstUnresolved | src/codegen/codegen.rs:460-509 | an expression's emission fails exactly on the leftmost identifier without a visible symbol |
| StackExpr.TermFailsOnFirstUnresolved | src/codegen/codegen.rs:393-410 | the same for a term |
| StackExpr.ExpStackEffect | src/codegen/codegen.rs:434-509 | when it succeeds, an expression's code has exactly one more `push` than `pop` and never pops below the depth it started at |
| StackExpr.TermStackEffect | src/codegen/codegen.rs:393-410 | pushes exactly one value and never pops below its start |
| StackExpr.IdentStackEffect | src/codegen/codegen.rs:412-424 | an identifier's code pushes exactly one value |
| StackExpr.IntLitStackEffect | src/codegen/codegen.rs:426-432 | a literal's code pushes exactly one value |
| StackExpr.NegStackEffect | src/codegen/codegen.rs:397-405 | negation pops the inner value and pushes one back |
| StackExpr.BinaryTailEffect | src/codegen/codegen.rs:448-457 | the code after both operands pops two values and pushes one, needing two on the stack |
| StackExpr.OperatorLinesNeutral | src/codegen/codegen.rs:462-505 | no operator's instructions push or pop |
| StackExpr.ExpDefinesNoLabels | src/codegen/codegen.rs:460-509 | expression code defines no label |
| StackExpr.TermDefinesNoLabels | src/codegen/codegen.rs:393-410 | term code defines no label |
| StackExpr.ExpNoJumps | src/codegen/codegen.rs:460-509 | expression code holds no jump |
| StackExpr.TermNoJumps | src/codegen/codegen.rs:393-410 | term code holds no jump |
| BlockCodegen.ProgramText | src/codegen/codegen.rs:320-331 | the text of a successful `gen` starts with `_start:` and `mov rbp, rsp` and ends with `xor rcx, rcx` and `call ExitProcess` |
| BlockCodegen.SimpleStmtError | src/codegen/codegen.rs:212-240 | a statement fails exactly when an identifier it reads (an assignment's target first) has no visible symbol; the error is `UndeclaredIdent` of the first such identifier; an unknown assignment target fails before any line is emitted |
| BlockCodegen.BlockStops | src/codegen/codegen.rs:304-319 | a block whose statement fails is the `{` comment and the code up to the error, with no closing comment |
| BlockCodegen.GenStmtsStops | src/codegen/codegen.rs:314-316 | once a statement fails, later statements generate nothing |
| BlockCodegen.Asm.Default | src/codegen/codegen.rs:166-175 | an empty text and a new label decorator |
| BlockCodegen.Asm.EmitInstr | src/codegen/codegen.rs:332-336 | appends one instruction line |
| BlockCodegen.Asm.EmitLabel | src/codegen/codegen.rs:338-341 | appends one label line |
| BlockCodegen.Asm.EmitComment | src/codegen/codegen.rs:343-347 | appends one comment line |
| BlockCodegen.Asm.EmitIdent | src/codegen/codegen.rs:412-424 | appends the identifier's load, or fails with `UndeclaredIdent` having appended nothing |
| BlockCodegen.Asm.EmitIntLit | src/codegen/codegen.rs:426-432 | appends the literal's load and succeeds |
| BlockCodegen.Asm.EmitNegTail | src/codegen/codegen.rs:399-403 | appends `pop rax`, the comment, `neg rax`, `push rax` |
| BlockCodegen.Asm.EmitTerm | src/codegen/codegen.rs:393-410 | appends `TermCode` and returns its error |
| BlockCodegen.Asm.EmitOperator | src/codegen/codegen.rs:462-505 | appends the operator's instructions |
| BlockCodegen.Asm.EmitBinaryTail | src/codegen/codegen.rs:448-456 | appends the comment, the pops, the operator and the push |
| BlockCodegen.Asm.EmitBinary | src/codegen/codegen.rs:434-458 | appends both operands' code and then the tail, stopping at the first error |
| BlockCodegen.Asm.EmitRexp | src/codegen/codegen.rs:460-509 | appends `ExpCode` and returns its error |
| BlockCodegen.Asm.GenStmt | src/codegen/codegen.rs:178-303 | appends `GenStmtSpec`'s code; leaves the head scope and the decorator's counters as it says; returns its error |
| BlockCodegen.Asm.GenExprStmt | src/codegen/codegen.rs:229-232 | appends the comment and the expression's code |
| BlockCodegen.Asm.EmitDeclareLines | src/codegen/codegen.rs:187-189 | appends the declaration's three lines |
| BlockCodegen.Asm.GenDeclare | src/codegen/codegen.rs:180-190 | registers the name, appends `sub rsp, 8` after the comment, never fails |
| BlockCodegen.Asm.EmitLetHead | src/codegen/codegen.rs:192-194 | appends the initialisation's heading lines |
| BlockCodegen.Asm.EmitLetTail | src/codegen/codegen.rs:205-210 | appends the pop, the reservation and the store into the new slot |
| BlockCodegen.Asm.GenInitialize | src/codegen/codegen.rs:191-211 | generates the value before registering the name; registers only when that succeeds |
| BlockCodegen.Asm.EmitAssignHead | src/codegen/codegen.rs:220-221 | appends the assignment's heading |
| BlockCodegen.Asm.EmitAssignTail | src/codegen/codegen.rs:224-227 | appends the pop and the store |
| BlockCodegen.Asm.GenAssign | src/codegen/codegen.rs:212-228 | looks up the target first, then generates the value and the store |
| BlockCodegen.Asm.EmitExitTail | src/codegen/codegen.rs:235-239 | appends a blank line, the `exit` comment, `pop rax`, `mov rcx, rax` and the call of `ExitProcess` |
| BlockCodegen.Asm.GenExit | src/codegen/codegen.rs:233-240 | appends the value's code and the exit call |
| BlockCodegen.Asm.EmitJumpIfZero | src/codegen/codegen.rs:250-256 | appends the test of the condition and `jz target` |
| BlockCodegen.Asm.GenIf | src/codegen/codegen.rs:243-257 | takes `end_if_k` before the condition, then emits the condition, `jz end_if_k`, the block and `end_if_k:` |
| BlockCodegen.Asm.GenIfElse | src/codegen/codegen.rs:258-298 | takes `else_start_k` and `else_end_m` before the condition, then emits the condition and the rest |
| BlockCodegen.Asm.GenThenElse | src/codegen/codegen.rs:270-298 | emits `jz else_start_k`, the block, `jmp else_end_m`, `else_start_k:`, the `else` part, `}` and `else_end_m:` |
| BlockCodegen.Asm.EmitElseJump | src/codegen/codegen.rs:277-279 | appends `jmp else_end_m` and `else_start_k:` |
| BlockCodegen.Asm.EmitElseClose | src/codegen/codegen.rs:284-297 | appends the closing comment and `else_end_m:` |
| BlockCodegen.Asm.GenElse | src/codegen/codegen.rs:280-295 | an `else` block is generated in a child scope; an `else if` in the same scope |
| BlockCodegen.Asm.GenBlock | src/codegen/codegen.rs:304-319 | in a new scope under the previous one (a root when there is none), appends `{`, the statements in order up to the first error, and `}` |
| BlockCodegen.Asm.GenStmts | src/codegen/codegen.rs:314-316 | generates the block's statements one after another in the same scope, stopping at the first error, and leaves the scope and the label counters as `GenStmtsSpec` says |
| BlockCodegen.ThenElseUnfold | src/codegen/codegen.rs:270-298 | an `if` with an `else`: a failing then-branch stops after `jz` and that branch, otherwise the `else` part follows and its labels and error are the result's |
| BlockCodegen.Asm.GenProgram | src/codegen/codegen.rs:320-331 | appends the entry, the root block and, on success, the exit with code 0 |
| BlockCodegen.Asm.EmitEpilogue | src/codegen/codegen.rs:326-329 | appends the exit with code 0 |
| BlockLabels.StmtLabels | src/codegen/codegen.rs:178-303 | the bookkeeping `Kept`: a statement's code defines exactly the labels it took from the decorator in that step, none twice; the counters only grow; this holds on failure too |
| BlockLabels.SimpleStmtQuiet | src/codegen/codegen.rs:180-240 | statements other than blocks and `if` define no label, take none and leave the counters unchanged |
| BlockLabels.IfLabels | src/codegen/codegen.rs:243-257 | an `if` without `else` keeps the bookkeeping: the labels its code defines (the block's and `end_if_k`) are exactly labels taken during that step, none twice, and the counters only grow |
| BlockLabels.IfElseLabels | src/codegen/codegen.rs:258-298 | an `if`/`else` keeps the bookkeeping: `else_start_k`, `else_end_m` and the branches' labels are each defined at most once, all of them taken during that step |
| BlockLabels.ThenElseLabels | src/codegen/codegen.rs:270-298 | the same from the test onwards, counting the two labels taken before the condition |
| BlockLabels.ElseLabels | src/codegen/codegen.rs:280-295 | the `else` part (a block or a nested `if`) keeps the bookkeeping |
| BlockLabels.StmtsLabels | src/codegen/codegen.rs:314-316 | a statement sequence keeps the bookkeeping |
| BlockLabels.BlockLabelsKept | src/codegen/codegen.rs:304-319 | a block keeps the bookkeeping |
| BlockLabels.ProgramLabels | src/codegen/codegen.rs:320-331 | the labels `gen` defines are `_start` followed by those of the program's block |
| BlockLabels.ProgramLabelsDistinct | src/codegen/codegen.rs:320-331 | no label of `gen`'s text is defined twice, `_start` included |
| BlockJumps.SimpleNoJumps | src/codegen/codegen.rs:180-240 | statements other than blocks and `if` hold no jump |
| BlockJumps.StmtJumps | src/codegen/codegen.rs:178-303 | every `jz`/`jmp` of a successful statement names a label defined later in the same code |
| BlockJumps.IfJumps | src/codegen/codegen.rs:243-257 | every jump of an `if` without `else`, `jz end_if_k` included, names a label defined further down |
| BlockJumps.IfElseJumps | src/codegen/codegen.rs:258-298 | the jumps of an `if`/`else` go forward |
| BlockJumps.ThenElseJumps | src/codegen/codegen.rs:270-298 | every jump from the test onwards (`jz else_start_k`, `jmp else_end_m` and the branches' own jumps) names a label defined further down |
| BlockJumps.ElseJumps | src/codegen/codegen.rs:280-295 | the jumps of the `else` part go forward |
| BlockJumps.StmtsJumps | src/codegen/codegen.rs:314-316 | the jumps of a statement sequence go forward |
| BlockJumps.BlockJumps | src/codegen/codegen.rs:304-319 | the jumps of a block go forward |
| BlockJumps.ProgramJumps | src/codegen/codegen.rs:320-331 | every jump in the text of a successful `gen` goes forward to a label of that text |
| FlatCodegen.FlatStmtError | src/codegen.rs:180-240 | a statement fails exactly when an identifier it reads (an assignment's target first) has no visible symbol; the error is `UseOfUndeclaredIdent` of the first such identifier |
| FlatCodegen.FlatStmtsStops | src/codegen.rs:178-244 | once a statement fails, later statements generate nothing |
| FlatCodegen.ProgramStops | src/codegen.rs:174-250 | a failing program's text is the entry and the code up to the error, with no exit |
| FlatCodegen.FlatStmtStack | src/codegen.rs:180-240 | a successful statement never pops below its start; its net is 0, except 1 for an expression statement and for `exit`, whose value is moved to rcx without a pop |
| FlatCodegen.FlatInitializeStack | src/codegen.rs:191-211 | an initialisation pops the value it pushed |
| FlatCodegen.FlatAssignStack | src/codegen.rs:212-228 | an assignment pops the value it pushed |
| FlatCodegen.FlatStmtsStack | src/codegen.rs:178-244 | a statement sequence's net is the number of values its statements leave |
| FlatCodegen.FlatStmtsOffset | src/codegen.rs:180-211 | the offset grows by 8 for each declaration and initialisation |
| FlatCodegen.FlatProgramStack | src/codegen.rs:174-250 | the program's net is the values left by expression statements and `exit`; it never pops below zero |
| FlatCodegen.FlatProgramText | src/codegen.rs:174-250 | a successful `gen` starts with `_start:` and `mov rbp, rsp` and ends with `xor rcx, rcx` and `call ExitProcess` |
| FlatCodegen.FlatAsm.Default | src/codegen.rs:163-171 | an empty text |
| FlatCodegen.FlatAsm.EmitInstr | src/codegen.rs:252-256 | appends one instruction line |
| FlatCodegen.FlatAsm.EmitLabel | src/codegen.rs:258-261 | appends one label line |
| FlatCodegen.FlatAsm.EmitComment | src/codegen.rs:263-267 | appends one comment line |
| FlatCodegen.FlatAsm.EmitBanner | src/codegen.rs:268-273 | appends one `comment_emp` line (`"    ; ################# s #################\n"`) |
| FlatCodegen.FlatAsm.EmitIdent | src/codegen.rs:338-350 | appends the load, or fails with `UseOfUndeclaredIdent` having appended nothing |
| FlatCodegen.FlatAsm.EmitIntLit | src/codegen.rs:352-358 | appends the literal's load |
| FlatCodegen.FlatAsm.EmitNegTail | src/codegen.rs:325-329 | appends the negation's tail |
| FlatCodegen.FlatAsm.EmitTerm | src/codegen.rs:319-336 | appends `TermCode` and returns its error |
| FlatCodegen.FlatAsm.EmitOperator | src/codegen.rs:388-431 | appends the operator's instructions |
| FlatCodegen.FlatAsm.EmitBinaryTail | src/codegen.rs:374-382 | appends the comment, pops, operator and push |
| FlatCodegen.FlatAsm.EmitBinary | src/codegen.rs:360-384 | appends both operands and the tail, stopping at the first error |
| FlatCodegen.FlatAsm.EmitRexp | src/codegen.rs:386-435 | appends `ExpCode` and returns its error |
| FlatCodegen.FlatAsm.GenDeclare | src/codegen.rs:180-190 | registers the name, then appends the banner and `sub rsp, 8` |
| FlatCodegen.FlatAsm.EmitLetHead | src/codegen.rs:192-194 | appends the initialisation's banner lines |
| FlatCodegen.FlatAsm.EmitLetTail | src/codegen.rs:205-210 | appends the pop, comment, reservation and store |
| FlatCodegen.FlatAsm.GenInitialize | src/codegen.rs:191-211 | generates the value before registering the name |
| FlatCodegen.FlatAsm.EmitAssignHead | src/codegen.rs:220-221 | appends the blank line and the assignment's banner |
| FlatCodegen.FlatAsm.EmitAssignTail | src/codegen.rs:224-227 | appends the pop and the store |
| FlatCodegen.FlatAsm.GenAssign | src/codegen.rs:212-228 | an unknown target fails with `UseOfUndeclaredIdent` before any line |
| FlatCodegen.FlatAsm.GenExprStmt | src/codegen.rs:229-232 | appends the banner and the expression |
| FlatCodegen.FlatAsm.EmitExitTail | src/codegen.rs:236-239 | appends `mov rcx, rax` and the call, with no pop |
| FlatCodegen.FlatAsm.GenExit | src/codegen.rs:233-240 | appends the empty banner, the value and the exit call |
| FlatCodegen.FlatAsm.GenStmt | src/codegen.rs:179-243 | one iteration of `gen`'s loop: appends `FlatStmtSpec`'s code and leaves the head scope as it says |
| FlatCodegen.FlatAsm.Gen | src/codegen.rs:174-251 | appends `FlatProgramSpec`'s code, leaves the environment as it says, returns its error |
| FlatCodegen.FlatAsm.EmitFlatExit | src/codegen.rs:246-249 | appends the exit with code 0 |
| SemanticAnalysis.AnalyzeRexpFirstError | src/semantic_anal.rs:77-106 | an expression passes exactly when every identifier it reads is declared and initialised; otherwise the error is `UseOfUndeclaredIdent` or `UseOfUninitializedIdent` of the leftmost bad one |
| SemanticAnalysis.AnalyzeStmt | src/semantic_anal.rs:29-71 | redeclaration fails with the identifier stored first; a new name gets the next 4-byte slot and its `initialized` flag; a successful assignment has a declared target and sets only its flag; an expression statement changes nothing |
| SemanticAnalysis.AnalyzeLayout | src/semantic_anal.rs:25-75 | on success the table's keys are exactly the introduced names; the i-th gets offset 4(i+1) and keeps its identifier; the final offset is 4 per name |
| SemanticAnalysis.OffsetsIncrease | src/semantic_anal.rs:35-59 | introduced names are distinct and their offsets strictly increase in declaration order |
| SemanticAnalysis.SelfInitializationFails | src/semantic_anal.rs:45-60 | `let x = x` fails with `UseOfUndeclaredIdent(x)` |
| SemanticAnalysis.Analyze | src/semantic_anal.rs:25-75 | the loop returns the table of `AnalyzeAll`, or its first error |
| SemanticAnalysis.AnalyzeStops | src/semantic_anal.rs:28-72 | the first failing statement decides the result |
| StatementParser.FromLexingError | src/parser.rs:21-26 | a lexing error becomes an `IllegalToken` with the same location and lexeme |
| StatementParser.FromLexingErrorInjective | src/parser.rs:21-26 | different lexing errors stay different |
| StatementParser.Consume | src/parser.rs:154 | consuming drops the current token, failing exactly when the next item is a lexing error |
| StatementParser.RexpSpec | src/parser.rs:142-156 | accepts only an identifier or an integer literal and consumes exactly one token; anything else is the `UnexpectedToken` error |
| StatementParser.LexpSpec | src/parser.rs:158-168 | accepts only an identifier and consumes it; anything else is an error |
| StatementParser.AssignSpec | src/parser.rs:130-140 | appends at most one statement, an `Assign`, and consumes input when it succeeds |
| StatementParser.AssignTail | src/parser.rs:132-139 | after the target, appends at most one statement, an `Assign`, and never moves the cursor back |
| StatementParser.DeclOrInitSpec | src/parser.rs:170-211 | appends at most one statement and consumes input when it succeeds |
| StatementParser.AfterLetIdent | src/parser.rs:178-183 | appends at most one statement |
| StatementParser.InitValue | src/parser.rs:186-210 | appends `Initialize(x, v)` exactly when the token after `=` is a value |
| StatementParser.RoundSpec | src/parser.rs:101-126 | every iteration of `parse`'s loop that does not stop consumes at least one token, so `parse` terminates |
| StatementParser.ParseAppendsOnly | src/parser.rs:100-128 | earlier statements are never altered |
| StatementParser.SkipStart | src/parser.rs:104-106 | a `StartOfFile` token is consumed and appends nothing |
| StatementParser.ParseRejects | src/parser.rs:119-124 | a token that starts no statement gives `UnexpectedToken` "Invalid token for starting a statement" |
| StatementParser.IdentWithoutAssign | src/parser.rs:130-135 | an identifier not followed by `=` is consumed and nothing is appended |
| StatementParser.InitKeptOnError | src/parser.rs:193-209 | the statement is appended before the final consume can fail |
| StatementParser.DeclareRound | src/parser.rs:170-183 | `let x` followed by a non-`=` appends `Declare(x)` |
| StatementParser.InitializeRound | src/parser.rs:184-210 | `let x = v` appends `Initialize(x, v)` |
| StatementParser.AssignRound | src/parser.rs:130-140 | `x = v` appends `Assign(x, v)` |
| StatementParser.StmtRoundTrip | src/parser.rs:100-128 | the tokens of a statement parse to exactly that statement |
| StatementParser.ProgramRoundTrip | src/parser.rs:100-128 | the tokens of a program, then end of file, parse to exactly that program, in order |
| StatementParser.ParseSource | src/parser.rs:100-128 | the same after the `StartOfFile` token, from an empty program |
| StatementParser.Parser.FromTokens | src/parser.rs:91-98 | a parser at the start of the stream with no statements |
| StatementParser.Parser.ConsumeToken | src/parser.rs:154 | moves the cursor as `Consume` says |
| StatementParser.Parser.Rexp | src/parser.rs:142-156 | does what `RexpSpec` says |
| StatementParser.Parser.Lexp | src/parser.rs:158-168 | does what `LexpSpec` says |
| StatementParser.Parser.AssignStmt | src/parser.rs:130-140 | does what `AssignSpec` says |
| StatementParser.Parser.DeclOrInit | src/parser.rs:170-177 | does what `DeclOrInitSpec` says |
| StatementParser.Parser.DeclTail | src/parser.rs:178-183 | does what `AfterLetIdent` says |
| StatementParser.Parser.InitTail | src/parser.rs:186-210 | does what `InitValue` says |
| StatementParser.Parser.Parse | src/parser.rs:100-128 | returns `ParseFrom`'s result and leaves its statements |
| CharLexer.FromStr | src/lexer.rs:93-104 | maps exactly `fun`, `return` and `let` to their keywords, and nothing else |
| CharLexer.MappingWellFormed | src/lexer.rs:62-91 | 28 entries; every two-character operator comes before every one-character one; each entry spells its operator |
| CharLexer.MappingCovers | src/lexer.rs:62-91 | every operator type is in the table with its spelling |
| CharLexer.TakeWhile | src/lexer.rs:139-153 | the longest prefix whose characters satisfy the predicate |
| CharLexer.FirstMatch | src/lexer.rs:177-184 | the index of the first table entry the input starts with |
| CharLexer.FirstMatchIsFirst | src/lexer.rs:177-184 | no earlier entry matches; with no match, none does |
| CharLexer.LongestOperator | src/lexer.rs:177-184 | with this table the first match is also the longest |
| CharLexer.DoubleEquals | src/lexer.rs:62-65 | `==` is read as `EqualTo`, not as two `Assign`s |
| CharLexer.SkipFrom | src/lexer.rs:155-157 | skips exactly the run of ASCII whitespace at the cursor |
| CharLexer.StringToken | src/lexer.rs:196-207 | a string starting with `"` gives a `Literal` or an `Invalid` and moves forward |
| CharLexer.NumberToken | src/lexer.rs:209-216 | a digit gives a `Literal` and moves forward |
| CharLexer.WordToken | src/lexer.rs:218-226 | a letter or `_` gives a `Keyword` or an `Ident` and moves forward |
| CharLexer.OperatorToken | src/lexer.rs:227-233 | any other character gives an `Op` or an `Invalid` and moves forward |
| CharLexer.NextToken | src/lexer.rs:190-238 | a token always moves the cursor forward |
| CharLexer.NoTokenIff | src/lexer.rs:190-194 | `next` returns `None` exactly when only whitespace is left |
| CharLexer.SpellingIsInput | src/lexer.rs:190-238 | every token's text is exactly the input it was read from, after the whitespace |
| CharLexer.StringSpelling | src/lexer.rs:196-207 | a string token's text is its input |
| CharLexer.NumberSpelling | src/lexer.rs:209-216 | a number token's text is its input |
| CharLexer.NumberShape | src/lexer.rs:209-216 | a number is a maximal digit run, optionally followed by `.` and another digit run |
| CharLexer.StringShape | src/lexer.rs:196-207 | a `Literal` is `"`, non-newline non-quote characters and `"`; an `Invalid` stops at a newline or the end of input |
| CharLexer.WordShape | src/lexer.rs:218-226 | a maximal word run, a `Keyword` when `from_str` knows it and an `Ident` otherwise |
| CharLexer.OperatorShape | src/lexer.rs:227-233 | an `Op` spells the longest matching table entry; otherwise a one-character `Invalid` |
| CharLexer.MatchShape | src/lexer.rs:177-184 | the first match of a well-formed table is the longest match; with no match, no entry matches |
| CharLexer.CaptureAsWrittenFromIff | src/lexer.rs:160-167 | the loop as written fails on an index past the end exactly when the input left is a proper prefix of the string |
| CharLexer.CaptureAsWrittenIff | src/lexer.rs:159-170 | `capture` as written indexes past the end exactly when the rest of the input is a proper prefix of the string; otherwise it answers whether the rest starts with it |
| CharLexer.CaptureOverrunsOnEquals | src/lexer.rs:161 | on the input `=`, `capture("==")` indexes past the end |
| CharLexer.CaptureOverrunsAfterNumber | src/lexer.rs:212 | after the number `5` at the end of input, `capture(".")` indexes past the end |
| CharLexer.CaptureOperatorAsWritten | src/lexer.rs:177-184 | `capture_operator` with `capture` as written: a match it reports is an entry whose capture succeeded |
| CharLexer.CaptureOperatorAgrees | src/lexer.rs:177-184 | when `capture_operator` as written does not panic, it finds no entry exactly when `FirstMatch` finds none, and otherwise the same entry |
| CharLexer.MappingEntries | src/lexer.rs:62-91 | the first eleven entries have two characters, beginning `&`, `\|`, `=`, `!`, `<`, `>`, `+`, `-`, `/`, `*`, `%` in that order; the other seventeen have one |
| CharLexer.OperatorPanicsIff | src/lexer.rs:177-184 | `capture_operator` as written panics exactly when the character is the last of the input and begins a two-character entry |
| CharLexer.NextAsWrittenIff | src/lexer.rs:190-238 | `next` as written panics exactly on a digit run reaching the end, a string left open at the end, or a last character that begins a two-character operator; on every other input it gives `NextToken`'s token and cursor |
| CharLexer.NextPanicsAfterNumber | src/lexer.rs:209-216 | `next` on `5` panics |
| CharLexer.NextPanicsInOpenString | src/lexer.rs:196-207 | `next` on `"ab` panics |
| CharLexer.NextPanicsOnLastEquals | src/lexer.rs:227-233 | `next` on `=` panics |
| CharLexer.NextScansNumberBeforeSemicolon | src/lexer.rs:209-216 | `next` on `5;` does not panic and gives `NextToken`'s result |
| CharLexer.Lexer.New | src/lexer.rs:113-118 | the cursor at 0 over the characters |
| CharLexer.Lexer.PeekCh | src/lexer.rs:125-131 | `None` exactly when the cursor is at or past the end; otherwise the character there |
| CharLexer.Lexer.NextCh | src/lexer.rs:133-137 | returns `peek_ch` and advances by one only when that is a character |
| CharLexer.Lexer.CaptureWhile | src/lexer.rs:139-153 | returns the maximal run satisfying the predicate and advances by exactly its length |
| CharLexer.Lexer.SkipWhitespace | src/lexer.rs:155-157 | moves the cursor past the whitespace run |
| CharLexer.Lexer.Capture | src/lexer.rs:159-170 | returns true exactly when the input at the cursor starts with the string, then advances by its length; on false the cursor is unchanged |
| CharLexer.Lexer.CaptureInvalidFromNext | src/lexer.rs:172-175 | a one-character `Invalid`, or `None` at the end |
| CharLexer.Lexer.CaptureOperator | src/lexer.rs:177-184 | the operator of the first table entry the input starts with, advancing past it; otherwise `None` with the cursor unchanged |
| CharLexer.Lexer.Next | src/lexer.rs:190-238 | returns `NextToken`'s token and leaves the cursor where it says |
| CharLexer.Lexer.ScanString | src/lexer.rs:196-207 | does what `StringToken` says: the quote, the run of string characters, and the closing quote when there is one |
| CharLexer.Lexer.ScanNumber | src/lexer.rs:209-216 | does what `NumberToken` says: the digits, then `.` and more digits when a `.` follows |
| CharLexer.Lexer.ScanWord | src/lexer.rs:218-226 | does what `WordToken` says: the word run, as a keyword or an identifier |
| CharLexer.Lexer.ScanOperator | src/lexer.rs:227-233 | does what `OperatorToken` says: the first matching operator, else a one-character `Invalid` |
| TableAsmGen.AsmCode.constructor | src/asmgen.rs:21-29 | an empty text; links kernel32 and declares `ExitProcess` |
| TableAsmGen.AsmCode.StmtLine | src/asmgen.rs:32-36 | appends one instruction line |
| TableAsmGen.AsmCode.LabelLine | src/asmgen.rs:38-41 | appends one label line |
| TableAsmGen.AsmCode.CommentLine | src/asmgen.rs:43-47 | appends one comment line |
| TableAsmGen.EmitStmt | src/asmgen.rs:98-156 | appends one statement's lines |
| TableAsmGen.EmitInitialize | src/asmgen.rs:104-130 | reserves 4 bytes, then copies an identifier via rax or stores a literal directly |
| TableAsmGen.EmitAssign | src/asmgen.rs:131-155 | the same, without a reservation |
| TableAsmGen.GenAsm | src/asmgen.rs:92-164 | builds exactly `GenAsmSpec`: the entry, the statements in program order, the exit |
| TableAsmGen.EmitEntry | src/asmgen.rs:94-95 | appends `_start:` and `mov rbp, rsp` |
| TableAsmGen.EmitExit | src/asmgen.rs:159-162 | appends the exit with code 0 |
| TableAsmGen.PrologueText | src/asmgen.rs:94-95 | the entry's text is `"_start:\n    mov rbp, rsp\n"` |
| TableAsmGen.GenAsmStarts | src/asmgen.rs:92-95 | the output starts with `_start:` and `mov rbp, rsp` |
| TableAsmGen.GenAsmEnds | src/asmgen.rs:159-163 | the output ends with the text of the two instructions `xor rcx, rcx` and `call ExitProcess`, each rendered as `stmt` formats it |
| TableAsmGen.BodyAppend | src/asmgen.rs:97-157 | statements are emitted in program order: the code of a concatenation is the concatenation of the codes |
| TableAsmGen.StmtReserves | src/asmgen.rs:99-155 | one `sub rsp, 4` per declaration or initialisation, none per assignment |
| TableAsmGen.ReserveCount | src/asmgen.rs:97-157 | the output holds exactly one `sub rsp, 4` per declaration and initialisation |
| TableAsmGen.AnalysisMakesKnown | src/asmgen.rs:105-142 | after a successful analysis every identifier `genasm` looks up is in the table, so no `expect` aborts; the final offset is 4 per reservation |
| TableAsmGen.ReservedIsAllocated | src/asmgen.rs:99-155 | the bytes reserved equal the offset the analysis allocated |
| TableAsmGen.StoresAddressReservedSlots | src/asmgen.rs:110-152 | for a program the analyser accepts, every store targets a slot that a `sub rsp, 4` of that statement or an earlier one reserved, and every copy reads a slot reserved before the statement |
| TableAsmGen.StoreSlotReserved | src/asmgen.rs:110-152 | the same for the i-th statement |

## Left out

- Text: the emitters' `String` is modelled as its sequence of lines, and the text as their rendering (`AsmText.RenderAll`). The emit methods state the lines they append; the text follows from `RenderAllAppend`.
- `write_to_file` and `compile` (src/codegen/codegen.rs:349-391, src/codegen.rs:275-317, src/asmgen.rs:49-89) create files and run `nasm` and `gcc`. They are I/O and are not modelled; `link_files` and `externals` appear only in the constructors.
- `Lexer::from_file`, `Parser::from_file` and src/main.rs read files, print and exit. They are not modelled.
- `NonNull` parent links and `SymbolBuilder` are not modelled: the scope chain is a sequence of scope records, and `Symbol` is a plain datatype.
- `Display` of program trees and tokens inside comments is modelled as `ShowExp`/`ShowTerm`, an approximation treated as opaque text. No property depends on its exact form.
- src/asmgen.rs formats an `Identifier` or `IntLiteral` with `{}` in its comments and in the store instruction `mov qword [rbp-N], {}` (src/asmgen.rs:127, 151). The model takes that text to be the token's lexeme (`RexpText` in comments, and `lit.lexeme` in `Store`).
- Character classes are ASCII predicates, not Unicode ones. The lexer's `str.len()` is the character count, which is the same for ASCII. With ASCII classes, the lexer's `panic!("Unreachable!!")` arm (src/lexer.rs:234-236) cannot be reached.
- Integer widths are not modelled: the `u32` counters and `usize` offsets are unbounded, so their overflow is not modelled.
- The x86 meaning of the emitted code is not modelled: only line shapes, push/pop balance, label definitions and jump targets are.
- The `panic!` arms for unimplemented variants, and `expect` on missing symbols, are preconditions:
  - `WellFormed`: an `else` holds a block or an `if`;
  - `Flat`: the flat generator gets no block and no `if`;
  - `Known`: every identifier given to `genasm` is in the table.

  `AnalysisMakesKnown` discharges `Known` for programs the analyser accepts.
- The parser's token source (`lexer.peek()`/`lexer.consume()`) belongs to a lexer generation that is not part of this model. It is modelled as a sequence of `Lexed` items that ends with `EndOfFile`; `consume` fails with the lexing error of the item it moves onto.
- The program tree of the code generators comes from a parser generation newer than src/parser.rs. `Ast` reconstructs it from what the generators match on.
- src/asmgen.rs looks up the symbol table with an `Identifier` key; the model uses the lexeme.
- src/asmgen.rs reserves 4-byte slots (`sub rsp, 4`, offsets 4, 8, …) but stores with `mov qword`, so neighbouring 8-byte stores overlap. The model reproduces the code as written and proves only the slot arithmetic.
- CharLexer.StringToken, CharLexer.NumberToken, CharLexer.OperatorToken, CharLexer.NextToken and the methods CharLexer.Lexer.Capture, CharLexer.Lexer.CaptureOperator, CharLexer.Lexer.Next, CharLexer.Lexer.ScanString, CharLexer.Lexer.ScanNumber and CharLexer.Lexer.ScanOperator use the corrected `>=` guard of `capture` (see Findings). On three kinds of input src/lexer.rs instead indexes past the end and panics, and gives no token:
  - (a) a digit run that reaches the end of the input, such as `exit 5`: `capture(".")` reads `contents[len]` (src/lexer.rs:212);
  - (b) a string left open at the end of the input, such as `"ab`: `capture("\"")` reads `contents[len]` (src/lexer.rs:200);
  - (c) a last character `&`, `|`, `=`, `!`, `<`, `>`, `+`, `-`, `/`, `*` or `%`, which begins a two-character entry (src/lexer.rs:62-73, 179-181).

  On these the model gives `Literal("5")`, `Invalid("\"ab")` and a one-character `Op`. `NextAsWritten` models `next` with the guard as written, and `NextAsWrittenIff` proves that it panics exactly on (a)–(c) and agrees with `NextToken` everywhere else.
- StatementParser.AssignSpec, StatementParser.DeclOrInitSpec and StatementParser.AfterLetIdent: their own ensures state only progress and append-at-most-one. The statement each one appends is pinned down by the round-trip lemmas (`DeclareRound`, `InitializeRound`, `AssignRound`) and by `InitValue`.
- Where a statement generator fails part-way, the model keeps the lines already appended, as the source does. After a failure the decorator's counters keep every label already taken.

## Findings

| source | as written | input that shows it | evidently intended | confidence | as-written member | corrected member |
|---|---|---|---|---|---|---|
| src/lexer.rs:161 | `capture` guards with `i + self.next_index > self.contents.len()` and then reads `self.contents[self.next_index + i]` | the input `=` with the cursor at 0: `capture_operator` tries `"=="` first; at i = 1 the guard `1 > 1` does not fire and `contents[1]` is read past the end. Also the number `5` at the end of input: `capture(".")` reads `contents[1]`; and the open string `"ab` at the end of input: `capture("\"")` reads `contents[3]` | the guard `>=`, so that `capture` returns `false` when the input ends first | not executed | CharLexer.CaptureAsWrittenIff | CharLexer.Lexer.Capture |

`CaptureAsWritten` models the loop as written, with an `IndexOutOfBounds` outcome for the read past the end. `CaptureAsWrittenIff` proves when that read happens: the rest of the input is a proper prefix of the string. `CaptureOverrunsOnEquals` and `CaptureOverrunsAfterNumber` give two concrete inputs. `NextAsWritten` lifts this to one call of `next`: `NextAsWrittenIff` proves that it panics exactly on a digit run at the end, a string left open at the end, or a last character that begins a two-character operator, and that it agrees with `NextToken` on every other input. `NextPanicsAfterNumber`, `NextPanicsInOpenString` and `NextPanicsOnLastEquals` are the three shortest inputs. `Lexer.Capture`, which every lexer operation uses, has the corrected guard and is proved to answer exactly "does the input at the cursor start with the string".
