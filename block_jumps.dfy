/** Jump targets in the output of the block-structured generator
    (src/codegen/codegen.rs): in the code of a successful generation every
    `jz` and every `jmp` names a label that the same code defines further
    down. The `jz end_if_k` of an `if` lands on the `end_if_k:` after its
    block; the `jz else_start_k` of an `if`/`else` lands on `else_start_k:`
    after the `jmp else_end_m`, which lands on `else_end_m:` after the
    `else` part. */
module BlockJumps {
  import opened Strings
  import opened AsmText
  import opened ScopeEnv
  import opened LabelDecorator
  import opened Ast
  import opened StackExpr
  import opened BlockCodegen

  /** Lines none of which is a jump send every jump (there is none) forward. */
  lemma QuietForward(code: seq<Line>)
    requires forall i :: 0 <= i < |code| ==> !code[i].Instr? || code[i].text == [] || code[i].text[0] != 'j'
    ensures NoJumps(code) && JumpsForward(code)
  {
    NoJumpLines(code);
    NoJumpsForward(code);
  }

  /** `jz target`, as `JumpIfZero` writes it, is a jump to `target`. */
  lemma JzTarget(target: string)
    ensures IsJump(Instr("jz " + target)) && JumpTarget(Instr("jz " + target)) == target
  {
    var t := "jz " + target;
    assert t[..3] == "jz ";
    assert t[3..] == target;
  }

  /** `jmp target`, as `ElseJump` writes it, is a jump to `target`. */
  lemma JmpTarget(target: string)
    ensures IsJump(Instr("jmp " + target)) && JumpTarget(Instr("jmp " + target)) == target
  {
    var t := "jmp " + target;
    assert t[1] == 'm';
    assert t[..3][1] != "jz "[1];
    assert t[..4] == "jmp ";
    assert t[4..] == target;
  }

  /** Jumps of two concatenated parts that each jump forward. */
  lemma ForwardThree(a: seq<Line>, b: seq<Line>, c: seq<Line>)
    requires JumpsForward(a) && JumpsForward(b) && JumpsForward(c)
    ensures JumpsForward(a + b + c)
  {
    ForwardAppend(a, b);
    ForwardAppend(a + b, c);
  }

  /** The lines of a statement other than a block or an `if` hold no jump. */
  lemma SimpleNoJumps(s: Stmt, head: Scope, parents: seq<Scope>, labels: map<string, nat>)
    requires !s.Block? && !s.If? && WellFormed(s)
    ensures NoJumps(GenStmtSpec(s, head, parents, labels).code)
  {
    var chain := [head] + parents;
    match s
    case Declare(id) =>
      var sym := NewSymbol(head, id.lexeme, false);
      FirstChar("sub rsp, ", NatToString(sym.sizeBytes));
      QuietForward(DeclareLines(sym));
    case Initialize(id, e) =>
      var ex := ExpCode(e, chain);
      QuietForward(LetHead(id, e));
      ExpNoJumps(e, chain);
      NoJumpsAppend(LetHead(id, e), ex.code);
      if ex.undeclared.None? {
        var sym := NewSymbol(head, id.lexeme, true);
        FirstChar("sub rsp, ", NatToString(sym.sizeBytes));
        FirstChar("mov qword [rbp-", NatToString(sym.rbpOffset) + "], rax");
        QuietForward(LetTail(sym, e));
        NoJumpsAppend(LetHead(id, e) + ex.code, LetTail(sym, e));
      }
    case Assign(target, e) =>
      AssignNoJumps(target, e, head, parents, labels);
    case ExprStmt(e) =>
      QuietForward([Comment(ShowExp(e))]);
      ExpNoJumps(e, chain);
      NoJumpsAppend([Comment(ShowExp(e))], ExpCode(e, chain).code);
    case Exit(e) =>
      ExpNoJumps(e, chain);
      QuietForward(ExitTail(e));
      NoJumpsAppend(ExpCode(e, chain).code, ExitTail(e));
  }

  lemma AssignNoJumps(target: Identifier, e: RExp, head: Scope, parents: seq<Scope>, labels: map<string, nat>)
    ensures NoJumps(AssignSpec(target, e, head, parents, labels).code)
  {
    var chain := [head] + parents;
    var ex := ExpCode(e, chain);
    match Lookup(chain, target.lexeme)
    case None =>
    case Some(sym) =>
      QuietForward(AssignHead(sym, e));
      ExpNoJumps(e, chain);
      NoJumpsAppend(AssignHead(sym, e), ex.code);
      if ex.undeclared.None? {
        FirstChar("mov qword [rbp-", NatToString(sym.rbpOffset) + "], rax");
        QuietForward(AssignTail(sym, e));
        NoJumpsAppend(AssignHead(sym, e) + ex.code, AssignTail(sym, e));
      }
  }

  /** Every jump of a successful `gen_stmt` goes forward to a label of the
      same code. */
  lemma {:induction false} StmtJumps(s: Stmt, head: Scope, parents: seq<Scope>, labels: map<string, nat>)
    requires WellFormed(s) && GenStmtSpec(s, head, parents, labels).error.None?
    ensures JumpsForward(GenStmtSpec(s, head, parents, labels).code)
    decreases Size(s), 4
  {
    match s
    case Block(body) =>
      BlockJumps(body, [head] + parents, labels);
    case If(_, _, elseBranch) =>
      if elseBranch.None? {
        IfJumps(s, head, parents, labels);
      } else {
        IfElseJumps(s, head, parents, labels);
      }
    case _ =>
      SimpleNoJumps(s, head, parents, labels);
      NoJumpsForward(GenStmtSpec(s, head, parents, labels).code);
  }

  /** `if c { .. }`: the `jz end_if_k` lands on the `end_if_k:` after the block. */
  lemma {:induction false} IfJumps(s: Stmt, head: Scope, parents: seq<Scope>, labels: map<string, nat>)
    requires s.If? && s.elseBranch.None? && WellFormed(s)
    requires IfSpec(s, head, parents, labels).error.None?
    ensures JumpsForward(IfSpec(s, head, parents, labels).code)
    decreases Size(s), 3
  {
    var chain := [head] + parents;
    var endIf := Decorated("end_if", IndexOf(labels, "end_if"));
    var ex := ExpCode(s.cond, chain);
    var b := GenBlockSpec(s.thenBody, chain, Bumped(labels, "end_if"));
    var test := [Comment(ShowExp(s.cond) + " == 0"), Instr("pop rax"), Instr("test rax, rax")];
    var jz := Instr("jz " + endIf);
    var rest := [Comment("if")] + b.code + [Label(endIf)];
    assert IfSpec(s, head, parents, labels).code == ex.code + JumpIfZero(s.cond, endIf) + b.code + [Label(endIf)];
    assert ex.code + JumpIfZero(s.cond, endIf) + b.code + [Label(endIf)] == (ex.code + test) + [jz] + rest;
    ExpNoJumps(s.cond, chain);
    QuietForward(test);
    NoJumpsAppend(ex.code, test);
    NoJumpsForward(ex.code + test);
    QuietForward([Comment("if")]);
    BlockJumps(s.thenBody, chain, Bumped(labels, "end_if"));
    QuietForward([Label(endIf)]);
    ForwardThree([Comment("if")], b.code, [Label(endIf)]);
    assert rest[|rest| - 1] == Label(endIf);
    JzTarget(endIf);
    JumpAhead(ex.code + test, jz, rest);
  }

  /** `if c { .. } else ..`, after the condition. */
  lemma {:induction false} IfElseJumps(s: Stmt, head: Scope, parents: seq<Scope>, labels: map<string, nat>)
    requires s.If? && s.elseBranch.Some? && WellFormed(s)
    requires IfElseSpec(s, head, parents, labels).error.None?
    ensures JumpsForward(IfElseSpec(s, head, parents, labels).code)
    decreases Size(s), 3
  {
    var chain := [head] + parents;
    var k1 := IndexOf(labels, "else_start");
    var k2 := IndexOf(Bumped(labels, "else_start"), "else_end");
    var l2 := Bumped(Bumped(labels, "else_start"), "else_end");
    var ex := ExpCode(s.cond, chain);
    var t := ThenElseSpec(s, head, parents, l2, k1, k2);
    assert IfElseSpec(s, head, parents, labels).code == ex.code + t.code;
    ExpNoJumps(s.cond, chain);
    NoJumpsForward(ex.code);
    ThenElseJumps(s, head, parents, l2, k1, k2);
    ForwardAppend(ex.code, t.code);
  }

  /** The `jz else_start_k` lands on `else_start_k:` after the `jmp
      else_end_m`, and that jump on `else_end_m:` after the `else` part. */
  lemma {:induction false} ThenElseJumps(s: Stmt, head: Scope, parents: seq<Scope>, labels: map<string, nat>, k1: nat, k2: nat)
    requires s.If? && s.elseBranch.Some? && WellFormed(s)
    requires ThenElseSpec(s, head, parents, labels, k1, k2).error.None?
    ensures JumpsForward(ThenElseSpec(s, head, parents, labels, k1, k2).code)
    decreases Size(s), 2
  {
    var chain := [head] + parents;
    var elseStart, elseEnd := Decorated("else_start", k1), Decorated("else_end", k2);
    ThenElseUnfold(s, head, parents, labels, k1, k2);
    var b := GenBlockSpec(s.thenBody, chain, labels);
    var e := ElseSpec(s, head, parents, b.labels);
    BlockJumps(s.thenBody, chain, labels);
    ElseJumps(s, head, parents, b.labels);
    ThenElseForward(s.cond, b.code, e.code, elseStart, elseEnd);
  }

  /** The test, the `then` code, the jump over the `else`, the `else` code
      and the end label: both jumps land further down. */
  lemma ThenElseForward(cond: RExp, thenCode: seq<Line>, elseCode: seq<Line>, elseStart: string, elseEnd: string)
    requires JumpsForward(thenCode) && JumpsForward(elseCode)
    ensures JumpsForward(JumpIfZero(cond, elseStart) + thenCode + ElseJump(elseStart, elseEnd) + elseCode + ElseClose(elseEnd))
  {
    var test := [Comment(ShowExp(cond) + " == 0"), Instr("pop rax"), Instr("test rax, rax")];
    var jz, jmp := Instr("jz " + elseStart), Instr("jmp " + elseEnd);
    var tail := [Label(elseStart)] + elseCode + ElseClose(elseEnd);
    var thenPart := [Comment("if")] + thenCode;
    assert JumpIfZero(cond, elseStart) + thenCode + ElseJump(elseStart, elseEnd) + elseCode + ElseClose(elseEnd)
        == test + [jz] + (thenPart + [jmp] + tail);
    QuietForward(test);
    QuietForward([Comment("if")]);
    ForwardAppend([Comment("if")], thenCode);
    QuietForward([Label(elseStart)]);
    QuietForward(ElseClose(elseEnd));
    ForwardThree([Label(elseStart)], elseCode, ElseClose(elseEnd));
    assert tail[|tail| - 1] == Label(elseEnd);
    JmpTarget(elseEnd);
    JumpAhead(thenPart, jmp, tail);
    assert (thenPart + [jmp] + tail)[|thenPart| + 1] == Label(elseStart);
    JzTarget(elseStart);
    JumpAhead(test, jz, thenPart + [jmp] + tail);
  }

  /** The `else` part: a block, or a nested `if` in the same scope. */
  lemma {:induction false} ElseJumps(s: Stmt, head: Scope, parents: seq<Scope>, labels: map<string, nat>)
    requires s.If? && s.elseBranch.Some? && WellFormed(s)
    requires ElseSpec(s, head, parents, labels).error.None?
    ensures JumpsForward(ElseSpec(s, head, parents, labels).code)
    decreases Size(s), 0
  {
    var els := s.elseBranch.value;
    assert Size(s) == 1 + SizeAll(s.thenBody) + Size(els);
    if els.Block? {
      assert Size(els) == 1 + SizeAll(els.body);
      assert AllWellFormed(els.body) by { assert WellFormed(els); }
      var eb := GenBlockSpec(els.body, [head] + parents, labels);
      BlockJumps(els.body, [head] + parents, labels);
      QuietForward([Comment("else {")]);
      ForwardAppend([Comment("else {")], eb.code);
    } else {
      var ei := GenStmtSpec(els, head, parents, labels);
      StmtJumps(els, head, parents, labels);
      QuietForward([Comment("else if {")]);
      ForwardAppend([Comment("else if {")], ei.code);
    }
  }

  /** The statements of a block, in order. */
  lemma {:induction false} StmtsJumps(ss: seq<Stmt>, head: Scope, parents: seq<Scope>, labels: map<string, nat>)
    requires AllWellFormed(ss) && GenStmtsSpec(ss, head, parents, labels).error.None?
    ensures JumpsForward(GenStmtsSpec(ss, head, parents, labels).code)
    decreases SizeAll(ss), 5
  {
    if ss != [] {
      var front := ss[..|ss| - 1];
      assert AllWellFormed(front) by {
        forall i | 0 <= i < |front| ensures WellFormed(front[i]) {
          assert front[i] == ss[i];
        }
      }
      var g := GenStmtsSpec(front, head, parents, labels);
      StmtsJumps(front, head, parents, labels);
      SizeAllElement(ss, |ss| - 1);
      var g2 := GenStmtSpec(ss[|ss| - 1], g.head, parents, g.labels);
      StmtJumps(ss[|ss| - 1], g.head, parents, g.labels);
      ForwardAppend(g.code, g2.code);
    }
  }

  /** `gen_block`: the statements between the `{` and `}` comments. */
  lemma {:induction false} BlockJumps(body: seq<Stmt>, outer: seq<Scope>, labels: map<string, nat>)
    requires AllWellFormed(body) && GenBlockSpec(body, outer, labels).error.None?
    ensures JumpsForward(GenBlockSpec(body, outer, labels).code)
    decreases SizeAll(body), 6
  {
    var head := EmptyScope(if outer == [] then 0 else outer[0].currentRbpOffset);
    var inner := GenStmtsSpec(body, head, outer, labels);
    StmtsJumps(body, head, outer, labels);
    QuietForward([Comment("{")]);
    QuietForward([Comment("}")]);
    ForwardThree([Comment("{")], inner.code, [Comment("}")]);
  }

  /** Every jump in the text of a successful `gen` goes forward to a label
      defined in that text. */
  lemma ProgramJumps(stmts: seq<Stmt>, labels: map<string, nat>)
    requires AllWellFormed(stmts) && ProgramSpec(stmts, labels).error.None?
    ensures JumpsForward(ProgramSpec(stmts, labels).code)
  {
    var b := GenBlockSpec(stmts, [], labels);
    BlockJumps(stmts, [], labels);
    PrologueQuiet();
    EpilogueQuiet();
    ForwardThree(Prologue, b.code, Epilogue);
  }

  lemma PrologueQuiet()
    ensures JumpsForward(Prologue)
  {
    var p := Prologue;
    assert p[1].text[0] == 'm';
    QuietForward(p);
  }

  lemma EpilogueQuiet()
    ensures JumpsForward(Epilogue)
  {
    var p := Epilogue;
    assert p[2].text[0] == 'x' && p[3].text[0] == 'c';
    QuietForward(p);
  }
}
