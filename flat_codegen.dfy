/** The earlier, flat code generator `Asm::gen` of src/codegen.rs: one
    environment for the whole program, no blocks and no `if`, and headings
    written with `comment_emp`.

    `FlatStmtSpec`, `FlatStmtsSpec` and `FlatProgramSpec` give, as functions
    of the program and the environment, the lines `gen` appends, the scope
    it leaves and the error it stops with; the class `FlatAsm` is proved to
    build exactly that text. */
module FlatCodegen {
  import opened Common
  import opened Strings
  import opened AsmText
  import opened ScopeEnv
  import opened Ast
  import opened StackExpr
  import opened BlockCodegen

  /** What generating some statements produced: the lines appended, the
      environment's head scope afterwards and the error it stopped with. */
  datatype Step = Step(code: seq<Line>, head: Scope, error: Option<CompileError>)

  /** In this generator an identifier with no visible symbol is a
      `UseOfUndeclaredIdent`. */
  function FlatError(ex: Emission): Option<CompileError> {
    if ex.undeclared.Some? then Some(UseOfUndeclaredIdent(ex.undeclared.value)) else None
  }

  /** The statements `gen` handles; it panics on blocks and `if`. */
  predicate Flat(s: Stmt) {
    !s.Block? && !s.If?
  }

  predicate AllFlat(ss: seq<Stmt>) {
    forall i :: 0 <= i < |ss| ==> Flat(ss[i])
  }

  // ---------------------------------------------------------------------
  // The generated code, as functions

  /** The body of `gen`'s loop for one statement, with the environment
      `[head] + parents`. */
  function FlatStmtSpec(s: Stmt, head: Scope, parents: seq<Scope>): Step
    requires Flat(s)
  {
    var chain := [head] + parents;
    match s
    case Declare(id) =>
      Step(FlatDeclareLines(NewSymbol(head, id.lexeme, false)), Registered(head, id.lexeme, SlotSize, false), None)
    case Initialize(id, e) =>
      var ex := ExpCode(e, chain);
      if ex.undeclared.Some? then Step(FlatLetHead(id, e) + ex.code, head, FlatError(ex))
      else Step(FlatLetHead(id, e) + ex.code + FlatLetTail(NewSymbol(head, id.lexeme, true), e),
                Registered(head, id.lexeme, SlotSize, true), None)
    case Assign(target, e) => FlatAssignSpec(target, e, head, parents)
    case ExprStmt(e) =>
      var ex := ExpCode(e, chain);
      Step([Banner(ShowExp(e))] + ex.code, head, FlatError(ex))
    case Exit(e) =>
      var ex := ExpCode(e, chain);
      if ex.undeclared.Some? then Step([Banner("")] + ex.code, head, FlatError(ex))
      else Step([Banner("")] + ex.code + FlatExitTail(e), head, None)
  }

  /** The `Assign` arm: the target is looked up before anything is written. */
  function FlatAssignSpec(target: Identifier, e: RExp, head: Scope, parents: seq<Scope>): Step {
    var chain := [head] + parents;
    match Lookup(chain, target.lexeme)
    case None => Step([], head, Some(UseOfUndeclaredIdent(target)))
    case Some(sym) =>
      var ex := ExpCode(e, chain);
      if ex.undeclared.Some? then Step(FlatAssignHead(sym, e) + ex.code, head, FlatError(ex))
      else Step(FlatAssignHead(sym, e) + ex.code + AssignTail(sym, e), head, None)
  }

  function FlatAssignHead(sym: Symbol, e: RExp): seq<Line> {
    [Instr(""), Banner(AssignNote(sym, e))]
  }

  function FlatDeclareLines(sym: Symbol): seq<Line> {
    [Instr(""), Banner("let " + sym.decoratedLexeme), Instr("sub rsp, " + NatToString(sym.sizeBytes))]
  }

  function FlatLetHead(id: Identifier, e: RExp): seq<Line> {
    [Instr(""), Banner("let " + id.lexeme + " = " + ShowExp(e)), Instr("")]
  }

  /** Unlike the block generator, the value is popped before the comment. */
  function FlatLetTail(sym: Symbol, e: RExp): seq<Line> {
    [Instr("pop rax"), Instr(""), Comment("let " + sym.decoratedLexeme + " = " + ShowExp(e)),
     Instr("sub rsp, " + NatToString(sym.sizeBytes)), Instr(StoreSlot(sym.rbpOffset))]
  }

  /** `exit e;` moves rax to rcx without popping the value `e` pushed. */
  function FlatExitTail(e: RExp): seq<Line> {
    [Instr(""), Comment("exit " + ShowExp(e)), Instr("mov rcx, rax"), Instr("call ExitProcess")]
  }

  /** `gen`'s loop over the first statements, stopping at the first error. */
  function FlatStmtsSpec(ss: seq<Stmt>, head: Scope, parents: seq<Scope>): Step
    requires AllFlat(ss)
  {
    if ss == [] then Step([], head, None)
    else
      var g := FlatStmtsSpec(ss[..|ss| - 1], head, parents);
      if g.error.Some? then g
      else
        var g2 := FlatStmtSpec(ss[|ss| - 1], g.head, parents);
        Step(g.code + g2.code, g2.head, g2.error)
  }

  const FlatEpilogue: seq<Line> :=
    [Instr(""), Banner("Exit with exit code 0"), Instr("xor rcx, rcx"), Instr("call ExitProcess")]

  /** `gen`: the entry label and frame pointer, the statements, and exit
      code 0 when no statement failed. */
  function FlatProgramSpec(stmts: seq<Stmt>, head: Scope, parents: seq<Scope>): Step
    requires AllFlat(stmts)
  {
    var g := FlatStmtsSpec(stmts, head, parents);
    if g.error.Some? then Step(Prologue + g.code, g.head, g.error)
    else Step(Prologue + g.code + FlatEpilogue, g.head, None)
  }

  lemma {:induction false} FlatStmtsStops(ss: seq<Stmt>, n: nat, head: Scope, parents: seq<Scope>)
    requires AllFlat(ss) && n <= |ss|
    requires FlatStmtsSpec(ss[..n], head, parents).error.Some?
    ensures FlatStmtsSpec(ss, head, parents) == FlatStmtsSpec(ss[..n], head, parents)
    decreases |ss|
  {
    if n < |ss| {
      var front := ss[..|ss| - 1];
      assert front[..n] == ss[..n];
      FlatStmtsStops(front, n, head, parents);
    } else {
      assert ss[..n] == ss;
    }
  }

  /** Once a prefix of the program fails, `gen` gives what that prefix gave. */
  lemma ProgramStops(ss: seq<Stmt>, n: nat, head: Scope, parents: seq<Scope>)
    requires AllFlat(ss) && n <= |ss|
    requires FlatStmtsSpec(ss[..n], head, parents).error.Some?
    ensures var g := FlatStmtsSpec(ss[..n], head, parents);
            FlatProgramSpec(ss, head, parents) == Step(Prologue + g.code, g.head, g.error)
  {
    FlatStmtsStops(ss, n, head, parents);
  }

  lemma FlatStmtsStep(ss: seq<Stmt>, i: nat, head: Scope, parents: seq<Scope>)
    requires AllFlat(ss) && i < |ss|
    ensures AllFlat(ss[..i])
    ensures FlatStmtsSpec(ss[..i + 1], head, parents)
         == var g := FlatStmtsSpec(ss[..i], head, parents);
            if g.error.Some? then g
            else
              var g2 := FlatStmtSpec(ss[i], g.head, parents);
              Step(g.code + g2.code, g2.head, g2.error)
  {
    assert ss[..i + 1][..i] == ss[..i];
    assert ss[..i + 1][i] == ss[i];
  }

  // ---------------------------------------------------------------------
  // Properties

  /** A statement fails exactly when one of the identifiers it reads has no
      visible symbol, and the error names the first such identifier. */
  lemma FlatStmtError(s: Stmt, head: Scope, parents: seq<Scope>)
    requires Flat(s)
    ensures var u := FirstUnresolved(Reads(s), [head] + parents);
            FlatStmtSpec(s, head, parents).error == if u.Some? then Some(UseOfUndeclaredIdent(u.value)) else None
  {
    var chain := [head] + parents;
    match s
    case Declare(_) =>
    case Initialize(_, e) => ExpFailsOnFirstUnresolved(e, chain);
    case Assign(target, e) =>
      ExpFailsOnFirstUnresolved(e, chain);
      assert ([target] + ExpIdents(e))[1..] == ExpIdents(e);
    case ExprStmt(e) => ExpFailsOnFirstUnresolved(e, chain);
    case Exit(e) => ExpFailsOnFirstUnresolved(e, chain);
  }

  /** Values a statement leaves on the stack: the value of an expression
      statement, and the value `exit` moves to rcx without popping. */
  function FlatLeaks(s: Stmt): nat {
    if s.ExprStmt? || s.Exit? then 1 else 0
  }

  function FlatLeaksAll(ss: seq<Stmt>): nat {
    if ss == [] then 0 else FlatLeaksAll(ss[..|ss| - 1]) + FlatLeaks(ss[|ss| - 1])
  }

  /** A statement that succeeds changes the stack depth by exactly the
      values it leaves, and never pops below where it started. */
  lemma FlatStmtStack(s: Stmt, head: Scope, parents: seq<Scope>)
    requires Flat(s) && FlatStmtSpec(s, head, parents).error.None?
    ensures Net(FlatStmtSpec(s, head, parents).code) == FlatLeaks(s)
    ensures StaysAbove(FlatStmtSpec(s, head, parents).code, 0)
  {
    match s
    case Declare(id) =>
      QuietLines(FlatDeclareLines(NewSymbol(head, id.lexeme, false)));
    case Initialize(id, e) => FlatInitializeStack(s, head, parents);
    case Assign(target, e) => FlatAssignStack(s, head, parents);
    case ExprStmt(e) =>
      var chain := [head] + parents;
      ExpThenQuiet([Banner(ShowExp(e))], e, chain, []);
      assert [Banner(ShowExp(e))] + ExpCode(e, chain).code + [] == [Banner(ShowExp(e))] + ExpCode(e, chain).code;
    case Exit(e) =>
      ExpThenQuiet([Banner("")], e, [head] + parents, FlatExitTail(e));
  }

  lemma FlatInitializeStack(s: Stmt, head: Scope, parents: seq<Scope>)
    requires s.Initialize? && Flat(s) && FlatStmtSpec(s, head, parents).error.None?
    ensures Net(FlatStmtSpec(s, head, parents).code) == 0
    ensures StaysAbove(FlatStmtSpec(s, head, parents).code, 0)
  {
    var chain := [head] + parents;
    var id, e := s.id, s.value;
    var sym := NewSymbol(head, id.lexeme, true);
    var ex := ExpCode(e, chain);
    assert ex.undeclared.None?;
    assert FlatStmtSpec(s, head, parents).code == FlatLetHead(id, e) + ex.code + FlatLetTail(sym, e);
    LetTailSplit(sym, e);
    ExpThenPop(FlatLetHead(id, e), e, chain, [], FlatLetTail(sym, e)[1..]);
  }

  lemma FlatAssignStack(s: Stmt, head: Scope, parents: seq<Scope>)
    requires s.Assign? && Flat(s) && FlatStmtSpec(s, head, parents).error.None?
    ensures Net(FlatStmtSpec(s, head, parents).code) == 0
    ensures StaysAbove(FlatStmtSpec(s, head, parents).code, 0)
  {
    var chain := [head] + parents;
    var target, e := s.target, s.value;
    var sym := Lookup(chain, target.lexeme).value;
    var ex := ExpCode(e, chain);
    assert ex.undeclared.None?;
    assert FlatStmtSpec(s, head, parents).code == [Instr(""), Banner(AssignNote(sym, e))] + ex.code + AssignTail(sym, e);
    AssignTailSplit(sym, e);
    ExpThenPop([Instr(""), Banner(AssignNote(sym, e))], e, chain,
               [Instr(""), Comment(AssignNote(sym, e))], [Instr(StoreSlot(sym.rbpOffset))]);
  }

  lemma LetTailSplit(sym: Symbol, e: RExp)
    ensures FlatLetTail(sym, e) == [] + [Instr("pop rax")] + FlatLetTail(sym, e)[1..]
    ensures var rest := FlatLetTail(sym, e)[1..];
            forall i :: 0 <= i < |rest| ==> !rest[i].Instr? || rest[i].text == [] || rest[i].text[0] != 'p'
  {
    FirstChar("sub rsp, ", NatToString(sym.sizeBytes));
    FirstChar("mov qword [rbp-", NatToString(sym.rbpOffset) + "], rax");
  }

  lemma AssignTailSplit(sym: Symbol, e: RExp)
    ensures AssignTail(sym, e) == [Instr(""), Comment(AssignNote(sym, e))] + [Instr("pop rax")] + [Instr(StoreSlot(sym.rbpOffset))]
    ensures StoreSlot(sym.rbpOffset)[0] != 'p'
  {
    FirstChar("mov qword [rbp-", NatToString(sym.rbpOffset) + "], rax");
  }

  /** Quiet lines, an expression, then lines that pop its value once. */
  lemma ExpThenPop(pre: seq<Line>, e: RExp, chain: seq<Scope>, a: seq<Line>, b: seq<Line>)
    requires ExpCode(e, chain).undeclared.None?
    requires forall i :: 0 <= i < |pre| ==> !pre[i].Instr? || pre[i].text == [] || pre[i].text[0] != 'p'
    requires forall i :: 0 <= i < |a| ==> !a[i].Instr? || a[i].text == [] || a[i].text[0] != 'p'
    requires forall i :: 0 <= i < |b| ==> !b[i].Instr? || b[i].text == [] || b[i].text[0] != 'p'
    ensures Net(pre + ExpCode(e, chain).code + (a + [Instr("pop rax")] + b)) == 0
    ensures StaysAbove(pre + ExpCode(e, chain).code + (a + [Instr("pop rax")] + b), 0)
  {
    var code := ExpCode(e, chain).code;
    QuietLines(pre);
    ExpStackEffect(e, chain);
    Sequenced(pre, code, 0);
    QuietLines(a);
    QuietLines(b);
    PopAmid(a, b);
    Sequenced(pre + code, a + [Instr("pop rax")] + b, 0);
  }

  /** Neutral lines around one `pop rax`. */
  lemma PopAmid(a: seq<Line>, b: seq<Line>)
    requires Neutral(a) && Neutral(b)
    ensures Net(a + [Instr("pop rax")] + b) == -1 && StaysAbove(a + [Instr("pop rax")] + b, 1)
  {
    var pop := Instr("pop rax");
    NeutralNet(a);
    NeutralNet(b);
    assert IsPop(pop) by { assert pop.text[..3] == "pop"; }
    OneLine(pop);
    NetAppend(a, [pop]);
    StaysAboveAppend(a, [pop], 1);
    NetAppend(a + [pop], b);
    StaysAboveAppend(a + [pop], b, 1);
  }

  /** Quiet lines, an expression, then quiet lines: the value stays. */
  lemma ExpThenQuiet(pre: seq<Line>, e: RExp, chain: seq<Scope>, post: seq<Line>)
    requires ExpCode(e, chain).undeclared.None?
    requires forall i :: 0 <= i < |pre| ==> !pre[i].Instr? || pre[i].text == [] || pre[i].text[0] != 'p'
    requires forall i :: 0 <= i < |post| ==> !post[i].Instr? || post[i].text == [] || post[i].text[0] != 'p'
    ensures Net(pre + ExpCode(e, chain).code + post) == 1
    ensures StaysAbove(pre + ExpCode(e, chain).code + post, 0)
  {
    var code := ExpCode(e, chain).code;
    QuietLines(pre);
    QuietLines(post);
    ExpStackEffect(e, chain);
    Sequenced(pre, code, 0);
    StaysAboveRaise(post, 0, 1);
    Sequenced(pre + code, post, 0);
  }

  /** A successful run of `gen`'s loop changes the stack depth by the
      number of expression and `exit` statements, and never pops below
      where it started. */
  lemma {:induction false} FlatStmtsStack(ss: seq<Stmt>, head: Scope, parents: seq<Scope>)
    requires AllFlat(ss) && FlatStmtsSpec(ss, head, parents).error.None?
    ensures Net(FlatStmtsSpec(ss, head, parents).code) == FlatLeaksAll(ss)
    ensures StaysAbove(FlatStmtsSpec(ss, head, parents).code, 0)
  {
    if ss != [] {
      var front := ss[..|ss| - 1];
      assert AllFlat(front) by { assert forall i :: 0 <= i < |front| ==> front[i] == ss[i]; }
      var g := FlatStmtsSpec(front, head, parents);
      FlatStmtsStack(front, head, parents);
      FlatStmtStack(ss[|ss| - 1], g.head, parents);
      var g2 := FlatStmtSpec(ss[|ss| - 1], g.head, parents);
      StaysAboveRaise(g2.code, 0, Net(g.code));
      Sequenced(g.code, g2.code, 0);
    }
  }

  /** Each successful declaration or initialisation raises the frame
      offset by 8; nothing else moves it. */
  function FlatSlots(ss: seq<Stmt>): nat {
    if ss == [] then 0
    else FlatSlots(ss[..|ss| - 1]) + (if ss[|ss| - 1].Declare? || ss[|ss| - 1].Initialize? then 1 else 0)
  }

  lemma {:induction false} FlatStmtsOffset(ss: seq<Stmt>, head: Scope, parents: seq<Scope>)
    requires AllFlat(ss) && FlatStmtsSpec(ss, head, parents).error.None?
    ensures FlatStmtsSpec(ss, head, parents).head.currentRbpOffset == head.currentRbpOffset + SlotSize * FlatSlots(ss)
  {
    if ss != [] {
      var front := ss[..|ss| - 1];
      assert AllFlat(front) by { assert forall i :: 0 <= i < |front| ==> front[i] == ss[i]; }
      FlatStmtsOffset(front, head, parents);
    }
  }

  /** A successful `gen` leaves on the stack one value per expression and
      `exit` statement, and never pops below the frame it starts from. */
  lemma FlatProgramStack(stmts: seq<Stmt>, head: Scope, parents: seq<Scope>)
    requires AllFlat(stmts) && FlatProgramSpec(stmts, head, parents).error.None?
    ensures Net(FlatProgramSpec(stmts, head, parents).code) == FlatLeaksAll(stmts)
    ensures StaysAbove(FlatProgramSpec(stmts, head, parents).code, 0)
  {
    var g := FlatStmtsSpec(stmts, head, parents);
    assert FlatProgramSpec(stmts, head, parents).code == Prologue + g.code + FlatEpilogue;
    FlatStmtsStack(stmts, head, parents);
    QuietPrologue();
    QuietEpilogue();
    QuietAround(Prologue, g.code, FlatEpilogue);
  }

  /** Neutral lines around code leave its stack effect as it is. */
  lemma QuietAround(pre: seq<Line>, mid: seq<Line>, post: seq<Line>)
    requires Net(pre) == 0 && StaysAbove(pre, 0) && Net(post) == 0 && StaysAbove(post, 0)
    requires Net(mid) >= 0 && StaysAbove(mid, 0)
    ensures Net(pre + mid + post) == Net(mid) && StaysAbove(pre + mid + post, 0)
  {
    Sequenced(pre, mid, 0);
    StaysAboveRaise(post, 0, Net(pre + mid));
    Sequenced(pre + mid, post, 0);
  }

  lemma QuietEpilogue()
    ensures Net(FlatEpilogue) == 0 && StaysAbove(FlatEpilogue, 0)
  {
    var epi := FlatEpilogue;
    assert epi[2].text[0] == 'x' && epi[3].text[0] == 'c';
    QuietLines(epi);
  }

  lemma QuietPrologue()
    ensures Net(Prologue) == 0 && StaysAbove(Prologue, 0)
  {
    assert Prologue[1].text[0] == 'm';
    QuietLines(Prologue);
  }

  /** The text of a successful `gen` starts with the entry label and the
      frame setup and ends by calling `ExitProcess` with rcx cleared. */
  lemma FlatProgramText(stmts: seq<Stmt>, head: Scope, parents: seq<Scope>)
    requires AllFlat(stmts) && FlatProgramSpec(stmts, head, parents).error.None?
    ensures var text := RenderAll(FlatProgramSpec(stmts, head, parents).code);
            StartsWith(text, Render(Label("_start")) + Render(Instr("mov rbp, rsp")))
            && EndsWith(text, Render(Instr("xor rcx, rcx")) + Render(Instr("call ExitProcess")))
  {
    var code := FlatProgramSpec(stmts, head, parents).code;
    var g := FlatStmtsSpec(stmts, head, parents);
    assert code == Prologue + (g.code + FlatEpilogue);
    StartsWithFirstTwo(code);
    EndsWithLastTwo(code);
  }

  // ---------------------------------------------------------------------
  // The generator

  class FlatAsm {
    /** The assembly text, kept as the lines it is made of. */
    var lines: seq<Line>

    function Text(): string
      reads this
    {
      RenderAll(lines)
    }

    /** `Asm::default`: empty text. */
    constructor Default()
      ensures lines == [] && Text() == ""
    {
      lines := [];
    }

    /** `stmt`: appends `"    " + s + "\n"`. */
    method EmitInstr(s: string)
      modifies this
      ensures lines == old(lines) + [Instr(s)]
    {
      lines := lines + [Instr(s)];
    }

    /** `label`: appends `s + ":\n"`. */
    method EmitLabel(s: string)
      modifies this
      ensures lines == old(lines) + [Label(s)]
    {
      lines := lines + [Label(s)];
    }

    /** `comment`: appends `"    ; " + s + "\n"`. */
    method EmitComment(s: string)
      modifies this
      ensures lines == old(lines) + [Comment(s)]
    {
      lines := lines + [Comment(s)];
    }

    /** `comment_emp`: appends `"    ; ################# " + s + " #################\n"`. */
    method EmitBanner(s: string)
      modifies this
      ensures lines == old(lines) + [Banner(s)]
    {
      lines := lines + [Banner(s)];
    }

    /** `ident` */
    method EmitIdent(id: Identifier, env: Env) returns (r: Result<(), CompileError>)
      modifies this
      ensures lines == old(lines) + IdentCode(id, env.Chain()).code
      ensures r == AsResult(FlatError(IdentCode(id, env.Chain())))
    {
      var sym := env.GetSymbol(id.lexeme);
      if sym.None? {
        return Err(UseOfUndeclaredIdent(id));
      }
      EmitInstr("");
      EmitComment(sym.value.decoratedLexeme);
      EmitInstr("push qword [rbp-" + NatToString(sym.value.rbpOffset) + "]");
      r := Ok(());
    }

    /** `intlit` */
    method EmitIntLit(lit: IntLiteral) returns (r: Result<(), CompileError>)
      modifies this
      ensures lines == old(lines) + IntLitCode(lit) && r == Ok(())
    {
      EmitInstr("");
      EmitComment(lit.lexeme);
      EmitInstr("mov rax, " + lit.lexeme);
      EmitInstr("push rax");
      r := Ok(());
    }

    method EmitNegTail(t: Term)
      modifies this
      ensures lines == old(lines) + NegTail(t)
    {
      EmitInstr("pop rax");
      EmitInstr("");
      EmitComment(ShowTerm(t));
      EmitInstr("neg rax");
      EmitInstr("push rax");
    }

    /** `term` */
    method EmitTerm(t: Term, env: Env) returns (r: Result<(), CompileError>)
      modifies this
      ensures lines == old(lines) + TermCode(t, env.Chain()).code
      ensures r == AsResult(FlatError(TermCode(t, env.Chain())))
      decreases t, 1
    {
      match t
      case Ident(id) => r := EmitIdent(id, env);
      case IntLit(lit) => r := EmitIntLit(lit);
      case Neg(inner) =>
        ghost var l0, code := lines, TermCode(inner, env.Chain()).code;
        r := EmitTerm(inner, env);
        if r.Err? {
          return;
        }
        EmitNegTail(t);
        AppendAssoc(l0, code, NegTail(t));
      case Bracketed(e) => r := EmitRexp(e, env);
    }

    /** The instructions of the closure `rexp` hands to `binary_operator`. */
    method EmitOperator(op: BinOp)
      modifies this
      ensures lines == old(lines) + OperatorLines(op)
    {
      match op
      case Add => EmitInstr("add rax, rbx");
      case Sub => EmitInstr("sub rax, rbx");
      case Mul => EmitInstr("mul rbx");
      case Div => EmitInstr("xor rdx, rdx"); EmitInstr("div rbx");
      case Equal => EmitInstr("cmp rax, rbx"); EmitInstr("sete al"); EmitInstr("and rax, 255");
      case NotEqual => EmitInstr("cmp rax, rbx"); EmitInstr("setne al"); EmitInstr("and rax, 255");
      case Less => EmitInstr("cmp rax, rbx"); EmitInstr("setl al"); EmitInstr("and rax, 255");
      case LessEqual => EmitInstr("cmp rax, rbx"); EmitInstr("setle al"); EmitInstr("and rax, 255");
      case Greater => EmitInstr("cmp rax, rbx"); EmitInstr("setg al"); EmitInstr("and rax, 255");
      case GreaterEqual => EmitInstr("cmp rax, rbx"); EmitInstr("setge al"); EmitInstr("and rax, 255");
    }

    method EmitBinaryTail(e: RExp)
      requires e.Binary?
      modifies this
      ensures lines == old(lines) + BinaryTail(e)
    {
      ghost var l0 := lines;
      ghost var head := [Instr(""), Comment(ShowExp(e)), Instr("pop rbx"), Instr("pop rax")];
      EmitInstr("");
      EmitComment(ShowExp(e));
      EmitInstr("pop rbx");
      EmitInstr("pop rax");
      assert lines == l0 + head;
      EmitOperator(e.op);
      AppendAssoc(l0, head, OperatorLines(e.op));
      EmitInstr("push rax");
      AppendAssoc(l0, head + OperatorLines(e.op), [Instr("push rax")]);
    }

    /** `binary_operator` */
    method EmitBinary(e: RExp, env: Env) returns (r: Result<(), CompileError>)
      requires e.Binary?
      modifies this
      ensures lines == old(lines) + ExpCode(e, env.Chain()).code
      ensures r == AsResult(FlatError(ExpCode(e, env.Chain())))
      decreases e, 0
    {
      ghost var l0, left, right := lines, ExpCode(e.lhs, env.Chain()).code, ExpCode(e.rhs, env.Chain()).code;
      r := EmitRexp(e.lhs, env);
      if r.Err? {
        return;
      }
      r := EmitRexp(e.rhs, env);
      AppendAssoc(l0, left, right);
      if r.Err? {
        return;
      }
      EmitBinaryTail(e);
      AppendAssoc(l0, left + right, BinaryTail(e));
    }

    /** `rexp` */
    method EmitRexp(e: RExp, env: Env) returns (r: Result<(), CompileError>)
      modifies this
      ensures lines == old(lines) + ExpCode(e, env.Chain()).code
      ensures r == AsResult(FlatError(ExpCode(e, env.Chain())))
      decreases e, 1
    {
      match e
      case Term(t) => r := EmitTerm(t, env);
      case Binary(_, _, _) => r := EmitBinary(e, env);
    }

    /** The `Declare` arm of `gen`. */
    method GenDeclare(id: Identifier, env: Env)
      requires env.Valid()
      modifies this, env
      ensures env.Valid()
      ensures var g := FlatStmtSpec(Declare(id), old(env.Head()), env.parents);
              lines == old(lines) + g.code && env.Head() == g.head
    {
      ghost var head := env.Head();
      env.Declare(id.lexeme);
      var sym := env.GetSymbol(id.lexeme).value;
      assert sym == NewSymbol(head, id.lexeme, false);
      EmitInstr("");
      EmitBanner("let " + sym.decoratedLexeme);
      EmitInstr("sub rsp, " + NatToString(sym.sizeBytes));
    }

    method EmitLetHead(id: Identifier, e: RExp)
      modifies this
      ensures lines == old(lines) + FlatLetHead(id, e)
    {
      EmitInstr("");
      EmitBanner("let " + id.lexeme + " = " + ShowExp(e));
      EmitInstr("");
    }

    method EmitLetTail(sym: Symbol, e: RExp)
      modifies this
      ensures lines == old(lines) + FlatLetTail(sym, e)
    {
      EmitInstr("pop rax");
      EmitInstr("");
      EmitComment("let " + sym.decoratedLexeme + " = " + ShowExp(e));
      EmitInstr("sub rsp, " + NatToString(sym.sizeBytes));
      EmitInstr("mov qword [rbp-" + NatToString(sym.rbpOffset) + "], rax");
    }

    /** The `Initialize` arm of `gen`. */
    method GenInitialize(id: Identifier, e: RExp, env: Env) returns (r: Result<(), CompileError>)
      requires env.Valid()
      modifies this, env
      ensures env.Valid()
      ensures var g := FlatStmtSpec(Initialize(id, e), old(env.Head()), env.parents);
              lines == old(lines) + g.code && env.Head() == g.head && r == AsResult(g.error)
    {
      ghost var head, l0, ex := env.Head(), lines, ExpCode(e, env.Chain());
      EmitLetHead(id, e);
      r := EmitRexp(e, env);
      AppendAssoc(l0, FlatLetHead(id, e), ex.code);
      if r.Err? {
        return;
      }
      env.Initialize(id.lexeme);
      var sym := env.GetSymbol(id.lexeme).value;
      assert sym == NewSymbol(head, id.lexeme, true);
      EmitLetTail(sym, e);
      AppendAssoc(l0, FlatLetHead(id, e) + ex.code, FlatLetTail(sym, e));
    }

    method EmitAssignTail(sym: Symbol, e: RExp)
      modifies this
      ensures lines == old(lines) + AssignTail(sym, e)
    {
      EmitInstr("");
      EmitComment(sym.decoratedLexeme + " = " + ShowExp(e));
      EmitInstr("pop rax");
      EmitInstr("mov qword [rbp-" + NatToString(sym.rbpOffset) + "], rax");
    }

    method EmitAssignHead(sym: Symbol, e: RExp)
      modifies this
      ensures lines == old(lines) + FlatAssignHead(sym, e)
    {
      EmitInstr("");
      EmitBanner(sym.decoratedLexeme + " = " + ShowExp(e));
    }

    /** The `Assign` arm of `gen`: nothing is written when the target has
        no visible symbol. */
    method GenAssign(target: Identifier, e: RExp, env: Env) returns (r: Result<(), CompileError>)
      modifies this
      ensures var g := FlatAssignSpec(target, e, env.Head(), env.parents);
              lines == old(lines) + g.code && r == AsResult(g.error)
    {
      var sym := env.GetSymbol(target.lexeme);
      if sym.None? {
        return Err(UseOfUndeclaredIdent(target));
      }
      ghost var l0, ex := lines, ExpCode(e, env.Chain());
      EmitAssignHead(sym.value, e);
      r := EmitRexp(e, env);
      AppendAssoc(l0, FlatAssignHead(sym.value, e), ex.code);
      if r.Err? {
        return;
      }
      EmitAssignTail(sym.value, e);
      AppendAssoc(l0, FlatAssignHead(sym.value, e) + ex.code, AssignTail(sym.value, e));
    }

    /** The `RExp` arm of `gen`. */
    method GenExprStmt(e: RExp, env: Env) returns (r: Result<(), CompileError>)
      modifies this
      ensures var g := FlatStmtSpec(ExprStmt(e), env.Head(), env.parents);
              lines == old(lines) + g.code && r == AsResult(g.error)
    {
      ghost var l0 := lines;
      EmitBanner(ShowExp(e));
      r := EmitRexp(e, env);
      AppendAssoc(l0, [Banner(ShowExp(e))], ExpCode(e, env.Chain()).code);
    }

    method EmitExitTail(e: RExp)
      modifies this
      ensures lines == old(lines) + FlatExitTail(e)
    {
      EmitInstr("");
      EmitComment("exit " + ShowExp(e));
      EmitInstr("mov rcx, rax");
      EmitInstr("call ExitProcess");
    }

    /** The `Exit` arm of `gen`. */
    method GenExit(e: RExp, env: Env) returns (r: Result<(), CompileError>)
      modifies this
      ensures var g := FlatStmtSpec(Exit(e), env.Head(), env.parents);
              lines == old(lines) + g.code && r == AsResult(g.error)
    {
      ghost var l0, ex := lines, ExpCode(e, env.Chain());
      EmitBanner("");
      r := EmitRexp(e, env);
      AppendAssoc(l0, [Banner("")], ex.code);
      if r.Err? {
        return;
      }
      EmitExitTail(e);
      AppendAssoc(l0, [Banner("")] + ex.code, FlatExitTail(e));
    }

    /** One iteration of `gen`'s loop. */
    method GenStmt(s: Stmt, env: Env) returns (r: Result<(), CompileError>)
      requires env.Valid() && Flat(s)
      modifies this, env
      ensures env.Valid()
      ensures var g := FlatStmtSpec(s, old(env.Head()), env.parents);
              lines == old(lines) + g.code && env.Head() == g.head && r == AsResult(g.error)
    {
      match s
      case Declare(id) => GenDeclare(id, env); r := Ok(());
      case Initialize(id, e) => r := GenInitialize(id, e, env);
      case Assign(target, e) => r := GenAssign(target, e, env);
      case ExprStmt(e) => r := GenExprStmt(e, env);
      case Exit(e) => r := GenExit(e, env);
    }

    /** `gen`: the statements in order against the one environment; the
        first error is returned as it is found. */
    method Gen(program: seq<Stmt>, env: Env) returns (r: Result<(), CompileError>)
      requires env.Valid() && AllFlat(program)
      modifies this, env
      ensures env.Valid()
      ensures var g := FlatProgramSpec(program, old(env.Head()), env.parents);
              lines == old(lines) + g.code && env.Head() == g.head && r == AsResult(g.error)
    {
      ghost var l0, head0 := lines, env.Head();
      EmitLabel("_start");
      EmitInstr("mov rbp, rsp");
      assert lines == l0 + Prologue;
      ghost var start := lines;
      for i := 0 to |program|
        invariant env.Valid()
        invariant var g := FlatStmtsSpec(program[..i], head0, env.parents);
                  lines == start + g.code && env.Head() == g.head && g.error.None?
      {
        ghost var g := FlatStmtsSpec(program[..i], head0, env.parents);
        ghost var g2 := FlatStmtSpec(program[i], env.Head(), env.parents);
        FlatStmtsStep(program, i, head0, env.parents);
        r := GenStmt(program[i], env);
        AppendAssoc(start, g.code, g2.code);
        if r.Err? {
          ProgramStops(program, i + 1, head0, env.parents);
          AppendAssoc(l0, Prologue, g.code + g2.code);
          return;
        }
      }
      ghost var all := FlatStmtsSpec(program, head0, env.parents);
      assert program[..|program|] == program;
      AppendAssoc(l0, Prologue, all.code);
      EmitFlatExit();
      r := Ok(());
    }

    /** The exit with code 0 that closes a successful `gen`. */
    method EmitFlatExit()
      modifies this
      ensures lines == old(lines) + FlatEpilogue
    {
      EmitInstr("");
      EmitBanner("Exit with exit code 0");
      EmitInstr("xor rcx, rcx");
      EmitInstr("call ExitProcess");
    }
  }
}
