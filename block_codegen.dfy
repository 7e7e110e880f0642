/** The block-structured code generator `Asm` of src/codegen/codegen.rs.

    `GenStmtSpec`, `GenStmtsSpec`, `GenBlockSpec` and `ProgramSpec` say, as
    functions of the program, the enclosing scopes and the label counters,
    which lines `gen_stmt`, `gen_block` and `gen` append, how they leave the
    innermost scope and the label counters, which labels they define and
    whether they stop with an error. On an error the lines emitted before it
    stay in the text, as they do in the source. The class `Asm` is proved to
    build exactly that text. */
module BlockCodegen {
  import opened Common
  import opened Strings
  import opened AsmText
  import opened ScopeEnv
  import opened LabelDecorator
  import opened Ast
  import opened StackExpr

  /** What a generation step produced: the lines appended, the innermost
      scope and the label counters afterwards, the (base, index) pairs of the
      labels it defined, in the order they appear, and the error it stopped
      with. */
  datatype Gen = Gen(code: seq<Line>, head: Scope, labels: map<string, nat>,
                     defined: seq<(string, nat)>, error: Option<CompileError>)

  function ExpError(ex: Emission): Option<CompileError> {
    if ex.undeclared.Some? then Some(UndeclaredIdent(ex.undeclared.value)) else None
  }

  function AsResult(error: Option<CompileError>): Result<(), CompileError> {
    if error.Some? then Err(error.value) else Ok(())
  }

  /** The symbol `declare` / `initialize` registers for `name` in `sc`. */
  function NewSymbol(sc: Scope, name: string, initialized: bool): Symbol {
    Symbol(Decorated(name, ShadowCount(sc, name) + 1), SlotSize, sc.currentRbpOffset + SlotSize, initialized)
  }

  /** The `else` of an `if` is a block or another `if`; the source panics
      on anything else. */
  predicate WellFormed(s: Stmt)
    decreases s
  {
    match s
    case Block(body) => forall i :: 0 <= i < |body| ==> WellFormed(body[i])
    case If(_, thenBody, elseBranch) =>
      (forall i :: 0 <= i < |thenBody| ==> WellFormed(thenBody[i]))
      && (elseBranch.Some? ==> (elseBranch.value.Block? || elseBranch.value.If?) && WellFormed(elseBranch.value))
    case _ => true
  }

  predicate AllWellFormed(ss: seq<Stmt>) {
    forall i :: 0 <= i < |ss| ==> WellFormed(ss[i])
  }

  function Size(s: Stmt): (n: nat)
    ensures n >= 1
    decreases s
  {
    match s
    case Block(body) => 1 + SizeAll(body)
    case If(_, thenBody, elseBranch) => 1 + SizeAll(thenBody) + (if elseBranch.Some? then Size(elseBranch.value) else 0)
    case _ => 1
  }

  function SizeAll(ss: seq<Stmt>): nat
    decreases ss
  {
    if ss == [] then 0 else SizeAll(ss[..|ss| - 1]) + Size(ss[|ss| - 1])
  }

  lemma {:induction false} SizeAllElement(ss: seq<Stmt>, i: nat)
    requires i < |ss|
    ensures Size(ss[i]) <= SizeAll(ss)
  {
    if i < |ss| - 1 {
      SizeAllElement(ss[..|ss| - 1], i);
    }
  }

  // ---------------------------------------------------------------------
  // The generated code, as functions

  /** `gen_stmt` on `stmt` with the environment `[head] + parents`. */
  function GenStmtSpec(s: Stmt, head: Scope, parents: seq<Scope>, labels: map<string, nat>): Gen
    requires WellFormed(s)
    decreases Size(s), 3
  {
    var chain := [head] + parents;
    match s
    case Declare(id) => DeclareSpec(id, head, labels)
    case Initialize(id, e) => InitializeSpec(id, e, head, parents, labels)
    case Assign(target, e) => AssignSpec(target, e, head, parents, labels)
    case ExprStmt(e) => ExprStmtSpec(e, head, parents, labels)
    case Exit(e) => ExitSpec(e, head, parents, labels)
    case Block(body) =>
      var b := GenBlockSpec(body, chain, labels);
      Gen(b.code, head, b.labels, b.defined, b.error)
    case If(_, _, elseBranch) =>
      if elseBranch.None? then IfSpec(s, head, parents, labels) else IfElseSpec(s, head, parents, labels)
  }

  /** `let x;`: registers `x` and reserves its slot. */
  function DeclareSpec(id: Identifier, head: Scope, labels: map<string, nat>): Gen {
    Gen(DeclareLines(NewSymbol(head, id.lexeme, false)), Registered(head, id.lexeme, SlotSize, false), labels, [], None)
  }

  function DeclareLines(sym: Symbol): seq<Line> {
    [Instr(""), Comment("let " + sym.decoratedLexeme), Instr("sub rsp, " + NatToString(sym.sizeBytes))]
  }

  /** `let x = e;`: `e` is generated BEFORE `x` is registered, so it sees
      the enclosing `x`, if any. */
  function InitializeSpec(id: Identifier, e: RExp, head: Scope, parents: seq<Scope>, labels: map<string, nat>): Gen {
    var ex := ExpCode(e, [head] + parents);
    if ex.undeclared.Some? then Gen(LetHead(id, e) + ex.code, head, labels, [], ExpError(ex))
    else Gen(LetHead(id, e) + ex.code + LetTail(NewSymbol(head, id.lexeme, true), e),
             Registered(head, id.lexeme, SlotSize, true), labels, [], None)
  }

  function LetHead(id: Identifier, e: RExp): seq<Line> {
    [Instr(""), Comment("let " + id.lexeme + " = " + ShowExp(e)), Instr("")]
  }

  function LetTail(sym: Symbol, e: RExp): seq<Line> {
    [Instr(""), Comment("let " + sym.decoratedLexeme + " = " + ShowExp(e)), Instr("pop rax"),
     Instr("sub rsp, " + NatToString(sym.sizeBytes)), Instr(StoreSlot(sym.rbpOffset))]
  }

  /** `x = e;`: fails before emitting anything when `x` has no visible symbol. */
  function AssignSpec(target: Identifier, e: RExp, head: Scope, parents: seq<Scope>, labels: map<string, nat>): Gen {
    var chain := [head] + parents;
    match Lookup(chain, target.lexeme)
    case None => Gen([], head, labels, [], Some(UndeclaredIdent(target)))
    case Some(sym) =>
      var ex := ExpCode(e, chain);
      if ex.undeclared.Some? then Gen(AssignHead(sym, e) + ex.code, head, labels, [], ExpError(ex))
      else Gen(AssignHead(sym, e) + ex.code + AssignTail(sym, e), head, labels, [], None)
  }

  function AssignNote(sym: Symbol, e: RExp): string {
    sym.decoratedLexeme + " = " + ShowExp(e)
  }

  function AssignHead(sym: Symbol, e: RExp): seq<Line> {
    [Instr(""), Comment(AssignNote(sym, e))]
  }

  function AssignTail(sym: Symbol, e: RExp): seq<Line> {
    [Instr(""), Comment(AssignNote(sym, e)), Instr("pop rax"), Instr(StoreSlot(sym.rbpOffset))]
  }

  /** `e;`: the expression's code after a comment showing it. Its value
      stays on the stack. */
  function ExprStmtSpec(e: RExp, head: Scope, parents: seq<Scope>, labels: map<string, nat>): Gen {
    var ex := ExpCode(e, [head] + parents);
    Gen([Comment(ShowExp(e))] + ex.code, head, labels, [], ExpError(ex))
  }

  /** `exit e;`: pops the value into rcx and calls `ExitProcess`. */
  function ExitSpec(e: RExp, head: Scope, parents: seq<Scope>, labels: map<string, nat>): Gen {
    var ex := ExpCode(e, [head] + parents);
    if ex.undeclared.Some? then Gen(ex.code, head, labels, [], ExpError(ex))
    else Gen(ex.code + ExitTail(e), head, labels, [], None)
  }

  function ExitTail(e: RExp): seq<Line> {
    [Instr(""), Comment("exit " + ShowExp(e)), Instr("pop rax"), Instr("mov rcx, rax"), Instr("call ExitProcess")]
  }

  /** The test that jumps to `target` when the condition's value is zero. */
  function JumpIfZero(cond: RExp, target: string): seq<Line> {
    [Comment(ShowExp(cond) + " == 0"), Instr("pop rax"), Instr("test rax, rax"), Instr("jz " + target), Comment("if")]
  }

  /** `if c { .. }`: the label `end_if_k` is taken before the condition is
      generated, so it is used up even when generation fails. */
  function IfSpec(s: Stmt, head: Scope, parents: seq<Scope>, labels: map<string, nat>): Gen
    requires s.If? && s.elseBranch.None? && WellFormed(s)
    decreases Size(s), 2
  {
    var k := IndexOf(labels, "end_if");
    var endIf := Decorated("end_if", k);
    var ex := ExpCode(s.cond, [head] + parents);
    if ex.undeclared.Some? then Gen(ex.code, head, Bumped(labels, "end_if"), [], ExpError(ex))
    else
      var pre := ex.code + JumpIfZero(s.cond, endIf);
      var b := GenBlockSpec(s.thenBody, [head] + parents, Bumped(labels, "end_if"));
      if b.error.Some? then Gen(pre + b.code, head, b.labels, b.defined, b.error)
      else Gen(pre + b.code + [Label(endIf)], head, b.labels, b.defined + [("end_if", k)], None)
  }

  /** `if c { .. } else ..`: labels `else_start_k` and `else_end_m`, taken
      before the condition; the `else` is generated in the same environment
      as the `if`. */
  function IfElseSpec(s: Stmt, head: Scope, parents: seq<Scope>, labels: map<string, nat>): Gen
    requires s.If? && s.elseBranch.Some? && WellFormed(s)
    decreases Size(s), 2
  {
    var k1 := IndexOf(labels, "else_start");
    var k2 := IndexOf(Bumped(labels, "else_start"), "else_end");
    var l2 := Bumped(Bumped(labels, "else_start"), "else_end");
    var ex := ExpCode(s.cond, [head] + parents);
    if ex.undeclared.Some? then Gen(ex.code, head, l2, [], ExpError(ex))
    else
      var t := ThenElseSpec(s, head, parents, l2, k1, k2);
      Gen(ex.code + t.code, t.head, t.labels, t.defined, t.error)
  }

  /** An `if` with an `else`, from the test of the condition's value on. */
  function ThenElseSpec(s: Stmt, head: Scope, parents: seq<Scope>, labels: map<string, nat>, k1: nat, k2: nat): Gen
    requires s.If? && s.elseBranch.Some? && WellFormed(s)
    decreases Size(s), 1
  {
    var elseStart, elseEnd := Decorated("else_start", k1), Decorated("else_end", k2);
    var b := GenBlockSpec(s.thenBody, [head] + parents, labels);
    var pre := JumpIfZero(s.cond, elseStart) + b.code;
    if b.error.Some? then Gen(pre, head, b.labels, b.defined, b.error)
    else
      var e := ElseSpec(s, head, parents, b.labels);
      var mid := pre + ElseJump(elseStart, elseEnd) + e.code;
      if e.error.Some? then Gen(mid, e.head, e.labels, b.defined + [("else_start", k1)] + e.defined, e.error)
      else Gen(mid + ElseClose(elseEnd), e.head, e.labels,
               b.defined + [("else_start", k1)] + e.defined + [("else_end", k2)], None)
  }

  /** `ThenElseSpec`'s code, defined labels and counters, case by case. */
  lemma ThenElseUnfold(s: Stmt, head: Scope, parents: seq<Scope>, labels: map<string, nat>, k1: nat, k2: nat)
    requires s.If? && s.elseBranch.Some? && WellFormed(s)
    ensures var g := ThenElseSpec(s, head, parents, labels, k1, k2);
            var b := GenBlockSpec(s.thenBody, [head] + parents, labels);
            var elseStart, elseEnd := Decorated("else_start", k1), Decorated("else_end", k2);
            var pre := JumpIfZero(s.cond, elseStart) + b.code;
            if b.error.Some? then g.code == pre && g.defined == b.defined && g.labels == b.labels && g.error == b.error
            else
              var e := ElseSpec(s, head, parents, b.labels);
              var mid := pre + ElseJump(elseStart, elseEnd) + e.code;
              g.labels == e.labels && g.error == e.error
              && if e.error.Some? then g.code == mid && g.defined == b.defined + [("else_start", k1)] + e.defined
                 else g.code == mid + ElseClose(elseEnd) && g.defined == b.defined + [("else_start", k1)] + e.defined + [("else_end", k2)]
  {
  }

  /** After the `then` block: jump over the `else`, then its label. */
  function ElseJump(elseStart: string, elseEnd: string): seq<Line> {
    [Instr("jmp " + elseEnd), Label(elseStart)]
  }

  /** After the `else`: the closing comment and the end label. */
  function ElseClose(elseEnd: string): seq<Line> {
    [Comment("}"), Label(elseEnd)]
  }

  /** The `else` part: a block (in a child scope) or a nested `if` (in the
      same scope). */
  function ElseSpec(s: Stmt, head: Scope, parents: seq<Scope>, labels: map<string, nat>): Gen
    requires s.If? && s.elseBranch.Some? && WellFormed(s)
    decreases Size(s), 0
  {
    var els := s.elseBranch.value;
    assert Size(s) == 1 + SizeAll(s.thenBody) + Size(els);
    if els.Block? then
      assert Size(els) == 1 + SizeAll(els.body);
      assert AllWellFormed(els.body) by { assert WellFormed(els); }
      var eb := GenBlockSpec(els.body, [head] + parents, labels);
      Gen([Comment("else {")] + eb.code, head, eb.labels, eb.defined, eb.error)
    else
      var ei := GenStmtSpec(els, head, parents, labels);
      Gen([Comment("else if {")] + ei.code, ei.head, ei.labels, ei.defined, ei.error)
  }

  /** The statements of a block, in order, stopping at the first error. */
  function GenStmtsSpec(ss: seq<Stmt>, head: Scope, parents: seq<Scope>, labels: map<string, nat>): Gen
    requires AllWellFormed(ss)
    decreases SizeAll(ss), 4
  {
    if ss == [] then Gen([], head, labels, [], None)
    else
      var g := GenStmtsSpec(ss[..|ss| - 1], head, parents, labels);
      if g.error.Some? then g
      else
        var g2 := GenStmtSpec(ss[|ss| - 1], g.head, parents, g.labels);
        Gen(g.code + g2.code, g2.head, g2.labels, g.defined + g2.defined, g2.error)
  }

  /** `gen_block`: a fresh scope below `outer` (a root scope when `outer` is
      empty) that starts allocating where `outer` stands; the block is
      bracketed by `{` and `}` comments. The returned `head` is the block's
      own scope, which the caller drops. */
  function GenBlockSpec(body: seq<Stmt>, outer: seq<Scope>, labels: map<string, nat>): Gen
    requires AllWellFormed(body)
    decreases SizeAll(body), 5
  {
    var inner := GenStmtsSpec(body, EmptyScope(if outer == [] then 0 else outer[0].currentRbpOffset), outer, labels);
    if inner.error.Some? then Gen([Comment("{")] + inner.code, inner.head, inner.labels, inner.defined, inner.error)
    else Gen([Comment("{")] + inner.code + [Comment("}")], inner.head, inner.labels, inner.defined, None)
  }

  const Prologue: seq<Line> := [Label("_start"), Instr("mov rbp, rsp")]
  const Epilogue: seq<Line> := [Instr(""), Comment("exit 0"), Instr("xor rcx, rcx"), Instr("call ExitProcess")]

  /** The identifiers a statement reads, in the order both generators look
      them up: an assignment's target before its value. */
  function Reads(s: Stmt): seq<Identifier> {
    match s
    case Declare(_) => []
    case Initialize(_, e) => ExpIdents(e)
    case Assign(target, e) => [target] + ExpIdents(e)
    case ExprStmt(e) => ExpIdents(e)
    case Exit(e) => ExpIdents(e)
    case _ => []
  }

  /** A statement other than a block or an `if` fails exactly when one of
      the identifiers it reads has no visible symbol, and the error names the
      first such identifier; an assignment to an unknown name fails before
      emitting anything. */
  lemma SimpleStmtError(s: Stmt, head: Scope, parents: seq<Scope>, labels: map<string, nat>)
    requires !s.Block? && !s.If?
    ensures var u := FirstUnresolved(Reads(s), [head] + parents);
            GenStmtSpec(s, head, parents, labels).error == if u.Some? then Some(UndeclaredIdent(u.value)) else None
    ensures s.Assign? && Lookup([head] + parents, s.target.lexeme).None? ==> GenStmtSpec(s, head, parents, labels).code == []
  {
    var chain := [head] + parents;
    match s
    case Declare(_) =>
    case Initialize(_, e) => ExpFailsOnFirstUnresolved(e, chain);
    case Assign(target, e) =>
      ExpFailsOnFirstUnresolved(e, chain);
      assert ([target] + ExpIdents(e))[1..] == ExpIdents(e);
    case ExprStmt(e) => ExpFailsOnFirstUnresolved(e, chain);
    case Exit(e) => ExpFailsOnFirstUnresolved(e, chain);
  }

  /** `gen`: the entry label, the frame pointer, the program as a root
      block, and exit code 0. */
  function ProgramSpec(stmts: seq<Stmt>, labels: map<string, nat>): Gen
    requires AllWellFormed(stmts)
  {
    var b := GenBlockSpec(stmts, [], labels);
    if b.error.Some? then Gen(Prologue + b.code, b.head, b.labels, b.defined, b.error)
    else Gen(Prologue + b.code + Epilogue, b.head, b.labels, b.defined, None)
  }

  /** The text of a successful `gen` starts with the entry label and the
      frame setup and ends by calling `ExitProcess` with rcx cleared. */
  lemma ProgramText(stmts: seq<Stmt>, labels: map<string, nat>)
    requires AllWellFormed(stmts) && ProgramSpec(stmts, labels).error.None?
    ensures var text := RenderAll(ProgramSpec(stmts, labels).code);
            StartsWith(text, Render(Label("_start")) + Render(Instr("mov rbp, rsp")))
            && EndsWith(text, Render(Instr("xor rcx, rcx")) + Render(Instr("call ExitProcess")))
  {
    var code := ProgramSpec(stmts, labels).code;
    var b := GenBlockSpec(stmts, [], labels);
    assert code == Prologue + (b.code + Epilogue);
    StartsWithFirstTwo(code);
    EndsWithLastTwo(code);
  }

  /** Once a prefix of a block fails, the block gives what that prefix gave. */
  lemma BlockStops(ss: seq<Stmt>, n: nat, head: Scope, outer: seq<Scope>, labels: map<string, nat>)
    requires AllWellFormed(ss) && n <= |ss|
    requires head == EmptyScope(if outer == [] then 0 else outer[0].currentRbpOffset)
    requires GenStmtsSpec(ss[..n], head, outer, labels).error.Some?
    ensures var g := GenStmtsSpec(ss[..n], head, outer, labels);
            GenBlockSpec(ss, outer, labels) == Gen([Comment("{")] + g.code, g.head, g.labels, g.defined, g.error)
  {
    GenStmtsStops(ss, n, head, outer, labels);
  }

  /** Once a prefix of the statements fails, the rest is not generated. */
  lemma {:induction false} GenStmtsStops(ss: seq<Stmt>, n: nat, head: Scope, parents: seq<Scope>, labels: map<string, nat>)
    requires AllWellFormed(ss) && n <= |ss|
    requires GenStmtsSpec(ss[..n], head, parents, labels).error.Some?
    ensures GenStmtsSpec(ss, head, parents, labels) == GenStmtsSpec(ss[..n], head, parents, labels)
    decreases |ss|
  {
    if n < |ss| {
      var front := ss[..|ss| - 1];
      assert front[..n] == ss[..n];
      GenStmtsStops(front, n, head, parents, labels);
    } else {
      assert ss[..n] == ss;
    }
  }

  lemma GenStmtsStep(ss: seq<Stmt>, i: nat, head: Scope, parents: seq<Scope>, labels: map<string, nat>)
    requires AllWellFormed(ss) && i < |ss|
    ensures AllWellFormed(ss[..i])
    ensures GenStmtsSpec(ss[..i + 1], head, parents, labels)
         == var g := GenStmtsSpec(ss[..i], head, parents, labels);
            if g.error.Some? then g
            else
              var g2 := GenStmtSpec(ss[i], g.head, parents, g.labels);
              Gen(g.code + g2.code, g2.head, g2.labels, g.defined + g2.defined, g2.error)
  {
    assert ss[..i + 1][..i] == ss[..i];
    assert ss[..i + 1][i] == ss[i];
  }

  // ---------------------------------------------------------------------
  // The generator


  class Asm {
    /** The assembly text, kept as the lines it is made of (every write of
        `stmt`, `label` and `comment` is one whole line); `Text()` is the
        string. */
    var lines: seq<Line>
    const labelDecorator: StringDecorator

    ghost predicate Valid()
      reads this, labelDecorator
    {
      labelDecorator.Valid()
    }

    function Text(): string
      reads this
    {
      RenderAll(lines)
    }

    /** `Asm::default`: empty text and a fresh label decorator. */
    constructor Default()
      ensures Valid() && lines == [] && Text() == ""
      ensures fresh(labelDecorator) && labelDecorator.decorationIndices == map[]
    {
      lines := [];
      labelDecorator := new StringDecorator.Default();
    }

    function Labels(): map<string, nat>
      reads this, labelDecorator
    {
      labelDecorator.decorationIndices
    }

    /** `stmt`: appends `"    " + s + "\n"` to the text. */
    method EmitInstr(s: string)
      requires Valid()
      modifies this
      ensures Valid() && lines == old(lines) + [Instr(s)]
    {
      lines := lines + [Instr(s)];
    }

    /** `label`: appends `s + ":\n"`. */
    method EmitLabel(s: string)
      requires Valid()
      modifies this
      ensures Valid() && lines == old(lines) + [Label(s)]
    {
      lines := lines + [Label(s)];
    }

    /** `comment`: appends `"    ; " + s + "\n"`. */
    method EmitComment(s: string)
      requires Valid()
      modifies this
      ensures Valid() && lines == old(lines) + [Comment(s)]
    {
      lines := lines + [Comment(s)];
    }

    /** `ident` */
    method EmitIdent(id: Identifier, env: Env) returns (r: Result<(), CompileError>)
      requires Valid()
      modifies this
      ensures Valid()
      ensures lines == old(lines) + IdentCode(id, env.Chain()).code
      ensures r == AsResult(ExpError(IdentCode(id, env.Chain())))
    {
      var sym := env.GetSymbol(id.lexeme);
      if sym.None? {
        return Err(UndeclaredIdent(id));
      }
      EmitInstr("");
      EmitComment(sym.value.decoratedLexeme);
      EmitInstr("push qword [rbp-" + NatToString(sym.value.rbpOffset) + "]");
      r := Ok(());
    }

    /** `intlit` */
    method EmitIntLit(lit: IntLiteral) returns (r: Result<(), CompileError>)
      requires Valid()
      modifies this
      ensures Valid()
      ensures lines == old(lines) + IntLitCode(lit) && r == Ok(())
    {
      EmitInstr("");
      EmitComment(lit.lexeme);
      EmitInstr("mov rax, " + lit.lexeme);
      EmitInstr("push rax");
      r := Ok(());
    }

    /** The part of `term` that negates the operand's value. */
    method EmitNegTail(t: Term)
      requires Valid()
      modifies this
      ensures Valid() && lines == old(lines) + NegTail(t)
    {
      EmitInstr("pop rax");
      EmitInstr("");
      EmitComment(ShowTerm(t));
      EmitInstr("neg rax");
      EmitInstr("push rax");
    }

    /** `term` */
    method EmitTerm(t: Term, env: Env) returns (r: Result<(), CompileError>)
      requires Valid()
      modifies this
      ensures Valid()
      ensures lines == old(lines) + TermCode(t, env.Chain()).code
      ensures r == AsResult(ExpError(TermCode(t, env.Chain())))
      decreases t, 1
    {
      match t
      case Ident(id) => r := EmitIdent(id, env);
      case IntLit(lit) => r := EmitIntLit(lit);
      case Neg(inner) =>
        ghost var l0, code := lines, TermCode(inner, env.Chain()).code;
        r := EmitTerm(inner, env);
        if r.Err? {
          return;
        }
        EmitNegTail(t);
        AppendAssoc(l0, code, NegTail(t));
      case Bracketed(e) => r := EmitRexp(e, env);
    }

    /** The instructions of the closure `rexp` hands to `binary_operator`. */
    method EmitOperator(op: BinOp)
      requires Valid()
      modifies this
      ensures Valid() && lines == old(lines) + OperatorLines(op)
    {
      match op
      case Add => EmitInstr("add rax, rbx");
      case Sub => EmitInstr("sub rax, rbx");
      case Mul => EmitInstr("mul rbx");
      case Div => EmitInstr("xor rdx, rdx"); EmitInstr("div rbx");
      case Equal => EmitInstr("cmp rax, rbx"); EmitInstr("sete al"); EmitInstr("and rax, 255");
      case NotEqual => EmitInstr("cmp rax, rbx"); EmitInstr("setne al"); EmitInstr("and rax, 255");
      case Less => EmitInstr("cmp rax, rbx"); EmitInstr("setl al"); EmitInstr("and rax, 255");
      case LessEqual => EmitInstr("cmp rax, rbx"); EmitInstr("setle al"); EmitInstr("and rax, 255");
      case Greater => EmitInstr("cmp rax, rbx"); EmitInstr("setg al"); EmitInstr("and rax, 255");
      case GreaterEqual => EmitInstr("cmp rax, rbx"); EmitInstr("setge al"); EmitInstr("and rax, 255");
    }

    /** The part of `binary_operator` after both operands. */
    method EmitBinaryTail(e: RExp)
      requires Valid() && e.Binary?
      modifies this
      ensures Valid() && lines == old(lines) + BinaryTail(e)
    {
      ghost var l0 := lines;
      ghost var head := [Instr(""), Comment(ShowExp(e)), Instr("pop rbx"), Instr("pop rax")];
      EmitInstr("");
      EmitComment(ShowExp(e));
      EmitInstr("pop rbx");
      EmitInstr("pop rax");
      assert lines == l0 + head;
      EmitOperator(e.op);
      AppendAssoc(l0, head, OperatorLines(e.op));
      EmitInstr("push rax");
      AppendAssoc(l0, head + OperatorLines(e.op), [Instr("push rax")]);
    }

    /** `binary_operator` */
    method EmitBinary(e: RExp, env: Env) returns (r: Result<(), CompileError>)
      requires Valid() && e.Binary?
      modifies this
      ensures Valid()
      ensures lines == old(lines) + ExpCode(e, env.Chain()).code
      ensures r == AsResult(ExpError(ExpCode(e, env.Chain())))
      decreases e, 0
    {
      ghost var l0, left, right := lines, ExpCode(e.lhs, env.Chain()).code, ExpCode(e.rhs, env.Chain()).code;
      r := EmitRexp(e.lhs, env);
      if r.Err? {
        return;
      }
      r := EmitRexp(e.rhs, env);
      AppendAssoc(l0, left, right);
      if r.Err? {
        return;
      }
      EmitBinaryTail(e);
      AppendAssoc(l0, left + right, BinaryTail(e));
    }

    /** `rexp` */
    method EmitRexp(e: RExp, env: Env) returns (r: Result<(), CompileError>)
      requires Valid()
      modifies this
      ensures Valid()
      ensures lines == old(lines) + ExpCode(e, env.Chain()).code
      ensures r == AsResult(ExpError(ExpCode(e, env.Chain())))
      decreases e, 1
    {
      match e
      case Term(t) => r := EmitTerm(t, env);
      case Binary(_, _, _) => r := EmitBinary(e, env);
    }

    /** `gen_stmt` */
    method GenStmt(s: Stmt, env: Env) returns (r: Result<(), CompileError>)
      requires Valid() && env.Valid() && WellFormed(s)
      modifies this, labelDecorator, env
      ensures Valid() && env.Valid()
      ensures var g := GenStmtSpec(s, old(env.Head()), env.parents, old(Labels()));
              lines == old(lines) + g.code && env.Head() == g.head && Labels() == g.labels
              && r == AsResult(g.error)
      decreases Size(s), 3
    {
      match s
      case Declare(id) => GenDeclare(id, env); r := Ok(());
      case Initialize(id, e) => r := GenInitialize(id, e, env);
      case Assign(target, e) => r := GenAssign(target, e, env);
      case ExprStmt(e) => r := GenExprStmt(e, env);
      case Exit(e) => r := GenExit(e, env);
      case Block(body) => r := GenBlock(body, env);
      case If(_, _, elseBranch) =>
        if elseBranch.None? {
          r := GenIf(s, env);
        } else {
          r := GenIfElse(s, env);
        }
    }

    method GenExprStmt(e: RExp, env: Env) returns (r: Result<(), CompileError>)
      requires Valid()
      modifies this
      ensures Valid()
      ensures var g := ExprStmtSpec(e, env.Head(), env.parents, Labels());
              lines == old(lines) + g.code && r == AsResult(g.error)
    {
      ghost var l0 := lines;
      EmitComment(ShowExp(e));
      r := EmitRexp(e, env);
      AppendAssoc(l0, [Comment(ShowExp(e))], ExpCode(e, env.Chain()).code);
    }

    method EmitDeclareLines(sym: Symbol)
      requires Valid()
      modifies this
      ensures Valid() && lines == old(lines) + DeclareLines(sym)
    {
      EmitInstr("");
      EmitComment("let " + sym.decoratedLexeme);
      EmitInstr("sub rsp, " + NatToString(sym.sizeBytes));
    }

    method GenDeclare(id: Identifier, env: Env)
      requires Valid() && env.Valid()
      modifies this, env
      ensures Valid() && env.Valid()
      ensures var g := DeclareSpec(id, old(env.Head()), Labels());
              lines == old(lines) + g.code && env.Head() == g.head && g.error.None?
    {
      ghost var head := env.Head();
      env.Declare(id.lexeme);
      var sym := env.GetSymbol(id.lexeme).value;
      assert sym == NewSymbol(head, id.lexeme, false);
      EmitDeclareLines(sym);
    }

    method EmitLetHead(id: Identifier, e: RExp)
      requires Valid()
      modifies this
      ensures Valid() && lines == old(lines) + LetHead(id, e)
    {
      EmitInstr("");
      EmitComment("let " + id.lexeme + " = " + ShowExp(e));
      EmitInstr("");
    }

    method EmitLetTail(sym: Symbol, e: RExp)
      requires Valid()
      modifies this
      ensures Valid() && lines == old(lines) + LetTail(sym, e)
    {
      EmitInstr("");
      EmitComment("let " + sym.decoratedLexeme + " = " + ShowExp(e));
      EmitInstr("pop rax");
      EmitInstr("sub rsp, " + NatToString(sym.sizeBytes));
      EmitInstr("mov qword [rbp-" + NatToString(sym.rbpOffset) + "], rax");
    }

    method GenInitialize(id: Identifier, e: RExp, env: Env) returns (r: Result<(), CompileError>)
      requires Valid() && env.Valid()
      modifies this, env
      ensures Valid() && env.Valid()
      ensures var g := InitializeSpec(id, e, old(env.Head()), env.parents, Labels());
              lines == old(lines) + g.code && env.Head() == g.head && r == AsResult(g.error)
    {
      ghost var head, l0, ex := env.Head(), lines, ExpCode(e, env.Chain());
      EmitLetHead(id, e);
      r := EmitRexp(e, env);
      AppendAssoc(l0, LetHead(id, e), ex.code);
      if r.Err? {
        return;
      }
      env.Initialize(id.lexeme);
      var sym := env.GetSymbol(id.lexeme).value;
      assert sym == NewSymbol(head, id.lexeme, true);
      EmitLetTail(sym, e);
      AppendAssoc(l0, LetHead(id, e) + ex.code, LetTail(sym, e));
    }

    method EmitAssignHead(sym: Symbol, e: RExp)
      requires Valid()
      modifies this
      ensures Valid() && lines == old(lines) + AssignHead(sym, e)
    {
      EmitInstr("");
      EmitComment(sym.decoratedLexeme + " = " + ShowExp(e));
    }

    method EmitAssignTail(sym: Symbol, e: RExp)
      requires Valid()
      modifies this
      ensures Valid() && lines == old(lines) + AssignTail(sym, e)
    {
      EmitInstr("");
      EmitComment(sym.decoratedLexeme + " = " + ShowExp(e));
      EmitInstr("pop rax");
      EmitInstr("mov qword [rbp-" + NatToString(sym.rbpOffset) + "], rax");
    }

    method GenAssign(target: Identifier, e: RExp, env: Env) returns (r: Result<(), CompileError>)
      requires Valid()
      modifies this
      ensures Valid()
      ensures var g := AssignSpec(target, e, env.Head(), env.parents, Labels());
              lines == old(lines) + g.code && r == AsResult(g.error)
    {
      var sym := env.GetSymbol(target.lexeme);
      if sym.None? {
        return Err(UndeclaredIdent(target));
      }
      ghost var l0, ex := lines, ExpCode(e, env.Chain());
      EmitAssignHead(sym.value, e);
      r := EmitRexp(e, env);
      AppendAssoc(l0, AssignHead(sym.value, e), ex.code);
      if r.Err? {
        return;
      }
      EmitAssignTail(sym.value, e);
      AppendAssoc(l0, AssignHead(sym.value, e) + ex.code, AssignTail(sym.value, e));
    }

    method EmitExitTail(e: RExp)
      requires Valid()
      modifies this
      ensures Valid() && lines == old(lines) + ExitTail(e)
    {
      EmitInstr("");
      EmitComment("exit " + ShowExp(e));
      EmitInstr("pop rax");
      EmitInstr("mov rcx, rax");
      EmitInstr("call ExitProcess");
    }

    method GenExit(e: RExp, env: Env) returns (r: Result<(), CompileError>)
      requires Valid()
      modifies this
      ensures Valid()
      ensures var g := ExitSpec(e, env.Head(), env.parents, Labels());
              lines == old(lines) + g.code && r == AsResult(g.error)
    {
      ghost var l0, ex := lines, ExpCode(e, env.Chain());
      r := EmitRexp(e, env);
      if r.Err? {
        return;
      }
      EmitExitTail(e);
      AppendAssoc(l0, ex.code, ExitTail(e));
    }

    /** The test emitted after an `if` condition. */
    method EmitJumpIfZero(cond: RExp, target: string)
      requires Valid()
      modifies this
      ensures Valid() && lines == old(lines) + JumpIfZero(cond, target)
    {
      EmitComment(ShowExp(cond) + " == 0");
      EmitInstr("pop rax");
      EmitInstr("test rax, rax");
      EmitInstr("jz " + target);
      EmitComment("if");
    }

    method GenIf(s: Stmt, env: Env) returns (r: Result<(), CompileError>)
      requires Valid() && env.Valid() && s.If? && s.elseBranch.None? && WellFormed(s)
      modifies this, labelDecorator
      ensures Valid()
      ensures var g := IfSpec(s, env.Head(), env.parents, old(Labels()));
              lines == old(lines) + g.code && Labels() == g.labels && r == AsResult(g.error)
      decreases Size(s), 2
    {
      ghost var l0, labels0, chain := lines, Labels(), env.Chain();
      ghost var ex := ExpCode(s.cond, chain);
      var endIf := labelDecorator.DecorateAndIncrement("end_if");
      r := EmitRexp(s.cond, env);
      if r.Err? {
        return;
      }
      EmitJumpIfZero(s.cond, endIf);
      AppendAssoc(l0, ex.code, JumpIfZero(s.cond, endIf));
      ghost var pre := ex.code + JumpIfZero(s.cond, endIf);
      ghost var b := GenBlockSpec(s.thenBody, chain, Labels());
      r := GenBlock(s.thenBody, env);
      AppendAssoc(l0, pre, b.code);
      if r.Err? {
        return;
      }
      EmitLabel(endIf);
      AppendAssoc(l0, pre + b.code, [Label(endIf)]);
    }

    method GenIfElse(s: Stmt, env: Env) returns (r: Result<(), CompileError>)
      requires Valid() && env.Valid() && s.If? && s.elseBranch.Some? && WellFormed(s)
      modifies this, labelDecorator, env
      ensures Valid() && env.Valid()
      ensures var g := IfElseSpec(s, old(env.Head()), env.parents, old(Labels()));
              lines == old(lines) + g.code && env.Head() == g.head && Labels() == g.labels
              && r == AsResult(g.error)
      decreases Size(s), 2
    {
      ghost var l0, labels0 := lines, Labels();
      ghost var ex := ExpCode(s.cond, env.Chain());
      ghost var k1 := IndexOf(labels0, "else_start");
      ghost var k2 := IndexOf(Bumped(labels0, "else_start"), "else_end");
      var elseStart := labelDecorator.DecorateAndIncrement("else_start");
      var elseEnd := labelDecorator.DecorateAndIncrement("else_end");
      r := EmitRexp(s.cond, env);
      if r.Err? {
        return;
      }
      ghost var t := ThenElseSpec(s, env.Head(), env.parents, Labels(), k1, k2);
      r := GenThenElse(s, env, elseStart, elseEnd, k1, k2);
      AppendAssoc(l0, ex.code, t.code);
    }

    /** The part of `gen_stmt` for an `if` with an `else` that follows the
        condition. */
    method GenThenElse(s: Stmt, env: Env, elseStart: string, elseEnd: string, ghost k1: nat, ghost k2: nat)
      returns (r: Result<(), CompileError>)
      requires Valid() && env.Valid() && s.If? && s.elseBranch.Some? && WellFormed(s)
      requires elseStart == Decorated("else_start", k1) && elseEnd == Decorated("else_end", k2)
      modifies this, labelDecorator, env
      ensures Valid() && env.Valid()
      ensures var g := ThenElseSpec(s, old(env.Head()), env.parents, old(Labels()), k1, k2);
              lines == old(lines) + g.code && env.Head() == g.head && Labels() == g.labels
              && r == AsResult(g.error)
      decreases Size(s), 1
    {
      ghost var l0 := lines;
      EmitJumpIfZero(s.cond, elseStart);
      ghost var b := GenBlockSpec(s.thenBody, env.Chain(), Labels());
      r := GenBlock(s.thenBody, env);
      AppendAssoc(l0, JumpIfZero(s.cond, elseStart), b.code);
      if r.Err? {
        return;
      }
      ghost var pre := JumpIfZero(s.cond, elseStart) + b.code;
      EmitElseJump(elseStart, elseEnd);
      AppendAssoc(l0, pre, ElseJump(elseStart, elseEnd));
      ghost var e := ElseSpec(s, env.Head(), env.parents, Labels());
      r := GenElse(s, env);
      AppendAssoc(l0, pre + ElseJump(elseStart, elseEnd), e.code);
      if r.Err? {
        return;
      }
      EmitElseClose(elseEnd);
      AppendAssoc(l0, pre + ElseJump(elseStart, elseEnd) + e.code, ElseClose(elseEnd));
    }

    method EmitElseJump(elseStart: string, elseEnd: string)
      requires Valid()
      modifies this
      ensures Valid() && lines == old(lines) + ElseJump(elseStart, elseEnd)
    {
      EmitInstr("jmp " + elseEnd);
      EmitLabel(elseStart);
    }

    method EmitElseClose(elseEnd: string)
      requires Valid()
      modifies this
      ensures Valid() && lines == old(lines) + ElseClose(elseEnd)
    {
      EmitComment("}");
      EmitLabel(elseEnd);
    }

    /** The `else` arm of the `match` in `gen_stmt`. */
    method GenElse(s: Stmt, env: Env) returns (r: Result<(), CompileError>)
      requires Valid() && env.Valid() && s.If? && s.elseBranch.Some? && WellFormed(s)
      modifies this, labelDecorator, env
      ensures Valid() && env.Valid()
      ensures var g := ElseSpec(s, old(env.Head()), env.parents, old(Labels()));
              lines == old(lines) + g.code && env.Head() == g.head && Labels() == g.labels
              && r == AsResult(g.error)
      decreases Size(s), 0
    {
      var els := s.elseBranch.value;
      assert Size(s) == 1 + SizeAll(s.thenBody) + Size(els);
      ghost var l0 := lines;
      if els.Block? {
        assert Size(els) == 1 + SizeAll(els.body);
        assert AllWellFormed(els.body) by { assert WellFormed(els); }
        ghost var eb := GenBlockSpec(els.body, env.Chain(), Labels());
        EmitComment("else {");
        r := GenBlock(els.body, env);
        AppendAssoc(l0, [Comment("else {")], eb.code);
      } else {
        ghost var ei := GenStmtSpec(els, env.Head(), env.parents, Labels());
        EmitComment("else if {");
        r := GenStmt(els, env);
        AppendAssoc(l0, [Comment("else if {")], ei.code);
      }
    }

    /** `gen_block`; `previous` is `None` when null. */
    method GenBlock(stmts: seq<Stmt>, previous: Env?) returns (r: Result<(), CompileError>)
      requires Valid() && AllWellFormed(stmts) && (previous != null ==> previous.Valid())
      modifies this, labelDecorator
      ensures Valid()
      ensures var g := GenBlockSpec(stmts, if previous == null then [] else previous.Chain(), old(Labels()));
              lines == old(lines) + g.code && Labels() == g.labels && r == AsResult(g.error)
      decreases SizeAll(stmts), 5
    {
      var env: Env;
      if previous == null {
        env := new Env.New();
      } else {
        env := new Env.WithTail(previous);
      }
      ghost var outer := if previous == null then [] else previous.Chain();
      assert env.Chain() == [EmptyScope(if outer == [] then 0 else outer[0].currentRbpOffset)] + outer;
      ghost var l0 := lines;
      EmitComment("{");
      ghost var inner := GenStmtsSpec(stmts, env.Head(), outer, Labels());
      r := GenStmts(stmts, env);
      AppendAssoc(l0, [Comment("{")], inner.code);
      if r.Err? {
        return;
      }
      EmitComment("}");
      AppendAssoc(l0, [Comment("{")] + inner.code, [Comment("}")]);
    }

    /** The loop of `gen_block` over its statements, in the block's own
        environment, up to the first error. */
    method GenStmts(stmts: seq<Stmt>, env: Env) returns (r: Result<(), CompileError>)
      requires Valid() && env.Valid() && AllWellFormed(stmts)
      modifies this, labelDecorator, env
      ensures Valid() && env.Valid()
      ensures var g := GenStmtsSpec(stmts, old(env.Head()), env.parents, old(Labels()));
              lines == old(lines) + g.code && env.Head() == g.head && Labels() == g.labels && r == AsResult(g.error)
      decreases SizeAll(stmts), 4
    {
      ghost var head0, labels0, start := env.Head(), Labels(), lines;
      for i := 0 to |stmts|
        invariant Valid() && env.Valid()
        invariant var g := GenStmtsSpec(stmts[..i], head0, env.parents, labels0);
                  lines == start + g.code && env.Head() == g.head && Labels() == g.labels && g.error.None?
      {
        ghost var g := GenStmtsSpec(stmts[..i], head0, env.parents, labels0);
        ghost var g2 := GenStmtSpec(stmts[i], env.Head(), env.parents, Labels());
        GenStmtsStep(stmts, i, head0, env.parents, labels0);
        SizeAllElement(stmts, i);
        r := GenStmt(stmts[i], env);
        AppendAssoc(start, g.code, g2.code);
        if r.Err? {
          GenStmtsStops(stmts, i + 1, head0, env.parents, labels0);
          return;
        }
      }
      assert stmts[..|stmts|] == stmts;
      r := Ok(());
    }

    /** `gen` */
    method GenProgram(stmts: seq<Stmt>) returns (r: Result<(), CompileError>)
      requires Valid() && AllWellFormed(stmts)
      modifies this, labelDecorator
      ensures Valid()
      ensures var g := ProgramSpec(stmts, old(Labels()));
              lines == old(lines) + g.code && Labels() == g.labels && r == AsResult(g.error)
    {
      ghost var l0 := lines;
      EmitLabel("_start");
      EmitInstr("mov rbp, rsp");
      assert lines == l0 + Prologue;
      ghost var b := GenBlockSpec(stmts, [], Labels());
      r := GenBlock(stmts, null);
      AppendAssoc(l0, Prologue, b.code);
      if r.Err? {
        return;
      }
      EmitEpilogue();
      AppendAssoc(l0, Prologue + b.code, Epilogue);
    }

    method EmitEpilogue()
      requires Valid()
      modifies this
      ensures Valid() && lines == old(lines) + Epilogue
    {
      EmitInstr("");
      EmitComment("exit 0");
      EmitInstr("xor rcx, rcx");
      EmitInstr("call ExitProcess");
    }
  }
}
