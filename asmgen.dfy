/** The table-driven emitter of src/asmgen.rs. `genasm` walks the statements
    of a parsed program (src/parser.rs) with the symbol table of the flat
    semantic analysis (src/semantic_anal.rs) and appends, for each
    statement, a blank line, a comment naming the statement, a
    `sub rsp, 4` for every new variable and the `mov`s that copy the value
    into the variable's slot `[rbp-<offset>]`. The code is framed by the
    `_start` entry and the call to `ExitProcess`.

    The output text is modelled as its sequence of lines (module AsmText);
    `GenAsmSpec` gives the lines for a program and a table, and the method
    `GenAsm` is proved to build exactly those. */
module TableAsmGen {
  import opened Common
  import opened Strings
  import opened AsmText
  import P = StatementParser
  import S = SemanticAnalysis

  /** The only library `compile` links against. */
  const Kernel32: string := "C:/windows/system32/kernel32.dll"

  /** Every variable reserves one 4-byte slot below the stack pointer. */
  const Reserve: Line := Instr("sub rsp, 4")

  const Prologue: seq<Line> := [Label("_start"), Instr("mov rbp, rsp")]

  const Epilogue: seq<Line> := [Instr(""), Comment("Exit with exit code 0"), Instr("xor rcx, rcx"), Instr("call ExitProcess")]

  // ---------------------------------------------------------------------
  // Symbol lookups

  /** The names a statement looks up in the table. `Declare` looks up none. */
  predicate StmtKnown(s: P.Stmt, table: S.SymTable) {
    match s
    case Declare(_) => true
    case Initialize(l, v) => l.lexeme in table && RexpKnown(v, table)
    case Assign(l, v) => l.lexeme in table && RexpKnown(v, table)
  }

  predicate RexpKnown(v: P.RExp, table: S.SymTable) {
    v.IdentExp? ==> v.id.lexeme in table
  }

  /** Every `symtable.get(..)` of `genasm` finds its entry, so no `expect`
      aborts. */
  predicate Known(ss: seq<P.Stmt>, table: S.SymTable) {
    forall i :: 0 <= i < |ss| ==> StmtKnown(ss[i], table)
  }

  /** The decimal `rbp_offset` of a name. */
  function Offset(id: P.Identifier, table: S.SymTable): string
    requires id.lexeme in table
  {
    NatToString(table[id.lexeme].rbpOffset)
  }

  /** `{}` of a right-hand side inside a comment: the lexeme it was read from. */
  function RexpText(v: P.RExp): string {
    match v
    case IntLit(lit) => lit.lexeme
    case IdentExp(id) => id.lexeme
  }

  // ---------------------------------------------------------------------
  // The lines of a program

  /** The `mov`s that copy `v` into the slot of `l`: through `rax` for a
      variable, as an immediate for a literal. */
  function Store(l: P.Identifier, v: P.RExp, table: S.SymTable): seq<Line>
    requires l.lexeme in table && RexpKnown(v, table)
  {
    match v
    case IdentExp(r) =>
      [Instr("mov rax, qword [rbp-" + Offset(r, table) + "]"),
       Instr("mov qword [rbp-" + Offset(l, table) + "], rax")]
    case IntLit(lit) =>
      [Instr("mov qword [rbp-" + Offset(l, table) + "], " + lit.lexeme)]
  }

  /** The lines one iteration of `genasm`'s loop appends. */
  function StmtCode(s: P.Stmt, table: S.SymTable): seq<Line>
    requires StmtKnown(s, table)
  {
    match s
    case Declare(x) =>
      [Instr(""), Comment("let " + x.lexeme), Reserve]
    case Initialize(l, v) =>
      [Instr(""), Comment("let " + l.lexeme + " = " + RexpText(v)), Reserve]
      + Store(l, v, table) + (if v.IdentExp? then [Instr("")] else [])
    case Assign(l, v) =>
      [Instr(""), Comment(l.lexeme + " = " + RexpText(v))] + Store(l, v, table)
  }

  /** The lines of the statements, in program order. */
  function BodyCode(ss: seq<P.Stmt>, table: S.SymTable): seq<Line>
    requires Known(ss, table)
  {
    if ss == [] then []
    else BodyCode(ss[..|ss| - 1], table) + StmtCode(ss[|ss| - 1], table)
  }

  /** All lines `genasm` writes. */
  function GenAsmSpec(ss: seq<P.Stmt>, table: S.SymTable): seq<Line>
    requires Known(ss, table)
  {
    Prologue + BodyCode(ss, table) + Epilogue
  }

  /** Statements that introduce a variable. */
  function Reserves(ss: seq<P.Stmt>): nat {
    if ss == [] then 0
    else Reserves(ss[..|ss| - 1]) + (if ss[|ss| - 1].Assign? then 0 else 1)
  }

  // ---------------------------------------------------------------------
  // The emitter

  /** `AsmCode`: the libraries to link, the external symbols and the text,
      here its lines. */
  class AsmCode {
    var linkFiles: set<string>
    var externals: seq<string>
    var lines: seq<Line>

    /** The text `write_to_file` puts after `section .text`. */
    function Text(): string
      reads this
    {
      RenderAll(lines)
    }

    /** `AsmCode::default()` */
    constructor ()
      ensures linkFiles == {Kernel32} && externals == ["ExitProcess"] && lines == []
      ensures Text() == ""
    {
      linkFiles := {Kernel32};
      externals := ["ExitProcess"];
      lines := [];
    }

    /** `stmt`: one indented instruction. */
    method StmtLine(s: string)
      modifies this
      ensures lines == old(lines) + [Instr(s)]
      ensures linkFiles == old(linkFiles) && externals == old(externals)
    {
      lines := lines + [Instr(s)];
    }

    /** `label`: a label definition. */
    method LabelLine(name: string)
      modifies this
      ensures lines == old(lines) + [Label(name)]
      ensures linkFiles == old(linkFiles) && externals == old(externals)
    {
      lines := lines + [Label(name)];
    }

    /** `comment`: a comment line. */
    method CommentLine(text: string)
      modifies this
      ensures lines == old(lines) + [Comment(text)]
      ensures linkFiles == old(linkFiles) && externals == old(externals)
    {
      lines := lines + [Comment(text)];
    }
  }

  /** One iteration of `genasm`'s loop: the lines of one statement. */
  method EmitStmt(asm: AsmCode, s: P.Stmt, symtable: S.SymTable)
    requires StmtKnown(s, symtable)
    modifies asm
    ensures asm.lines == old(asm.lines) + StmtCode(s, symtable)
    ensures asm.linkFiles == old(asm.linkFiles) && asm.externals == old(asm.externals)
  {
    match s
    case Declare(ident) =>
      asm.StmtLine("");
      asm.CommentLine("let " + ident.lexeme);
      asm.StmtLine("sub rsp, 4");
    case Initialize(lIdent, rexp) =>
      EmitInitialize(asm, lIdent, rexp, symtable);
    case Assign(lIdent, rexp) =>
      EmitAssign(asm, lIdent, rexp, symtable);
  }

  /** The `Stmt::Initialize` arm. */
  method EmitInitialize(asm: AsmCode, lIdent: P.Identifier, rexp: P.RExp, symtable: S.SymTable)
    requires StmtKnown(P.Initialize(lIdent, rexp), symtable)
    modifies asm
    ensures asm.lines == old(asm.lines) + StmtCode(P.Initialize(lIdent, rexp), symtable)
    ensures asm.linkFiles == old(asm.linkFiles) && asm.externals == old(asm.externals)
  {
    var lOffset := Offset(lIdent, symtable);
    match rexp
    case IdentExp(rIdent) =>
      var rOffset := Offset(rIdent, symtable);
      asm.StmtLine("");
      asm.CommentLine("let " + lIdent.lexeme + " = " + rIdent.lexeme);
      asm.StmtLine("sub rsp, 4");
      asm.StmtLine("mov rax, qword [rbp-" + rOffset + "]");
      asm.StmtLine("mov qword [rbp-" + lOffset + "], rax");
      asm.StmtLine("");
    case IntLit(intlit) =>
      asm.StmtLine("");
      asm.CommentLine("let " + lIdent.lexeme + " = " + intlit.lexeme);
      asm.StmtLine("sub rsp, 4");
      asm.StmtLine("mov qword [rbp-" + lOffset + "], " + intlit.lexeme);
  }

  /** The `Stmt::Assign` arm. */
  method EmitAssign(asm: AsmCode, lIdent: P.Identifier, rexp: P.RExp, symtable: S.SymTable)
    requires StmtKnown(P.Assign(lIdent, rexp), symtable)
    modifies asm
    ensures asm.lines == old(asm.lines) + StmtCode(P.Assign(lIdent, rexp), symtable)
    ensures asm.linkFiles == old(asm.linkFiles) && asm.externals == old(asm.externals)
  {
    var lOffset := Offset(lIdent, symtable);
    match rexp
    case IdentExp(rIdent) =>
      var rOffset := Offset(rIdent, symtable);
      asm.StmtLine("");
      asm.CommentLine(lIdent.lexeme + " = " + rIdent.lexeme);
      asm.StmtLine("mov rax, qword [rbp-" + rOffset + "]");
      asm.StmtLine("mov qword [rbp-" + lOffset + "], rax");
    case IntLit(intlit) =>
      asm.StmtLine("");
      asm.CommentLine(lIdent.lexeme + " = " + intlit.lexeme);
      asm.StmtLine("mov qword [rbp-" + lOffset + "], " + intlit.lexeme);
  }

  /** `genasm` */
  method GenAsm(program: seq<P.Stmt>, symtable: S.SymTable) returns (asm: AsmCode)
    requires Known(program, symtable)
    ensures fresh(asm)
    ensures asm.lines == GenAsmSpec(program, symtable)
    ensures asm.linkFiles == {Kernel32} && asm.externals == ["ExitProcess"]
  {
    asm := new AsmCode();
    ghost var links, externs := asm.linkFiles, asm.externals;
    EmitEntry(asm);
    for i := 0 to |program|
      invariant asm.lines == Prologue + BodyCode(program[..i], symtable)
      invariant asm.linkFiles == links && asm.externals == externs
    {
      EmitStmt(asm, program[i], symtable);
      BodyStep(program, i, symtable);
      AppendAssoc(Prologue, BodyCode(program[..i], symtable), StmtCode(program[i], symtable));
    }
    assert program[..|program|] == program;
    ghost var body := asm.lines;
    EmitExit(asm);
    assert asm.lines == body + Epilogue;
  }

  /** The code of one more statement. */
  lemma BodyStep(ss: seq<P.Stmt>, i: nat, table: S.SymTable)
    requires Known(ss, table) && i < |ss|
    ensures Known(ss[..i], table) && Known(ss[..i + 1], table) && StmtKnown(ss[i], table)
    ensures BodyCode(ss[..i + 1], table) == BodyCode(ss[..i], table) + StmtCode(ss[i], table)
  {
    assert ss[..i + 1][..i] == ss[..i] && ss[..i + 1][i] == ss[i];
  }

  /** The entry at the start of `genasm`. */
  method EmitEntry(asm: AsmCode)
    modifies asm
    ensures asm.lines == old(asm.lines) + Prologue
    ensures asm.linkFiles == old(asm.linkFiles) && asm.externals == old(asm.externals)
  {
    asm.LabelLine("_start");
    asm.StmtLine("mov rbp, rsp");
  }

  /** The exit sequence at the end of `genasm`. */
  method EmitExit(asm: AsmCode)
    modifies asm
    ensures asm.lines == old(asm.lines) + Epilogue
    ensures asm.linkFiles == old(asm.linkFiles) && asm.externals == old(asm.externals)
  {
    asm.StmtLine("");
    asm.CommentLine("Exit with exit code 0");
    asm.StmtLine("xor rcx, rcx");
    asm.StmtLine("call ExitProcess");
  }

  // ---------------------------------------------------------------------
  // Properties of the emitted code

  /** The text of the entry: the `_start` label and `mov rbp, rsp`. */
  lemma PrologueText()
    ensures RenderAll(Prologue) == "_start:\n    mov rbp, rsp\n"
  {
    RenderAllTwo(Label("_start"), Instr("mov rbp, rsp"));
  }

  /** The text starts with the `_start` entry and the frame pointer set-up,
      whatever the statements. */
  lemma GenAsmStarts(ss: seq<P.Stmt>, table: S.SymTable)
    requires Known(ss, table)
    ensures StartsWith(RenderAll(GenAsmSpec(ss, table)), "_start:\n    mov rbp, rsp\n")
  {
    var rest := BodyCode(ss, table) + Epilogue;
    assert GenAsmSpec(ss, table) == Prologue + rest;
    RenderAllAppend(Prologue, rest);
    Framed(RenderAll(Prologue), RenderAll(rest), "");
    assert RenderAll(Prologue) + RenderAll(rest) + "" == RenderAll(Prologue) + RenderAll(rest);
    PrologueText();
  }

  /** ... and ends with clearing the exit code and calling `ExitProcess`. */
  lemma GenAsmEnds(ss: seq<P.Stmt>, table: S.SymTable)
    requires Known(ss, table)
    ensures EndsWith(RenderAll(GenAsmSpec(ss, table)), Render(Instr("xor rcx, rcx")) + Render(Instr("call ExitProcess")))
  {
    var code := GenAsmSpec(ss, table);
    ExitLinesLast(ss, table);
    EndsWithLastTwo(code);
  }

  /** The last two lines of the code clear rcx and call `ExitProcess`. */
  lemma ExitLinesLast(ss: seq<P.Stmt>, table: S.SymTable)
    requires Known(ss, table)
    ensures var code := GenAsmSpec(ss, table);
            |code| >= 2 && code[|code| - 2] == Instr("xor rcx, rcx") && code[|code| - 1] == Instr("call ExitProcess")
  {
  }

  /** Statements are emitted in program order: the code of a program is
      the code of its first part followed by the code of the rest. */
  lemma {:induction false} BodyAppend(a: seq<P.Stmt>, b: seq<P.Stmt>, table: S.SymTable)
    requires Known(a + b, table)
    ensures Known(a, table) && Known(b, table)
    ensures BodyCode(a + b, table) == BodyCode(a, table) + BodyCode(b, table)
  {
    assert forall i :: 0 <= i < |a| ==> (a + b)[i] == a[i];
    assert forall i :: 0 <= i < |b| ==> (a + b)[|a| + i] == b[i];
    if b != [] {
      var b' := b[..|b| - 1];
      assert (a + b)[..|a + b| - 1] == a + b';
      assert (a + b)[|a + b| - 1] == b[|b| - 1];
      BodyAppend(a, b', table);
      AppendAssoc(BodyCode(a, table), BodyCode(b', table), StmtCode(b[|b| - 1], table));
    } else {
      assert a + b == a;
    }
  }

  lemma CountOfCons(l: Line, rest: seq<Line>, m: Line)
    ensures CountOf([l] + rest, m) == (if l == m then 1 else 0) + CountOf(rest, m)
  {
    CountOfAppend([l], rest, m);
    assert [l][..0] == [];
  }

  /** A line that is not the reservation does not add to its count. */
  lemma {:induction false} CountOfAbsent(lines: seq<Line>, m: Line)
    requires forall i :: 0 <= i < |lines| ==> lines[i] != m
    ensures CountOf(lines, m) == 0
  {
    if lines != [] {
      CountOfAbsent(lines[..|lines| - 1], m);
    }
  }

  lemma StoreReservesNothing(l: P.Identifier, v: P.RExp, table: S.SymTable)
    requires l.lexeme in table && RexpKnown(v, table)
    ensures CountOf(Store(l, v, table), Reserve) == 0
  {
    var code := Store(l, v, table);
    forall i | 0 <= i < |code| ensures code[i] != Reserve {
      assert code[i].text[0] == 'm';
    }
    CountOfAbsent(code, Reserve);
  }

  /** `Declare` and `Initialize` each emit one `sub rsp, 4`, `Assign` none. */
  lemma StmtReserves(s: P.Stmt, table: S.SymTable)
    requires StmtKnown(s, table)
    ensures CountOf(StmtCode(s, table), Reserve) == if s.Assign? then 0 else 1
  {
    var blank := Instr("");
    assert blank != Reserve;
    match s
    case Declare(x) =>
      var head := Comment("let " + x.lexeme);
      CountOfCons(blank, [head, Reserve], Reserve);
      CountOfCons(head, [Reserve], Reserve);
      CountOfCons(Reserve, [], Reserve);
      assert [blank, head, Reserve] == [blank] + [head, Reserve];
      assert [head, Reserve] == [head] + [Reserve];
      assert [Reserve] == [Reserve] + [];
    case Initialize(l, v) =>
      var head := Comment("let " + l.lexeme + " = " + RexpText(v));
      var tail: seq<Line> := if v.IdentExp? then [blank] else [];
      CountOfCons(blank, [head, Reserve], Reserve);
      CountOfCons(head, [Reserve], Reserve);
      CountOfCons(Reserve, [], Reserve);
      assert [blank, head, Reserve] == [blank] + [head, Reserve];
      assert [head, Reserve] == [head] + [Reserve];
      assert [Reserve] == [Reserve] + [];
      StoreReservesNothing(l, v, table);
      CountOfAppend([blank, head, Reserve], Store(l, v, table), Reserve);
      CountOfAppend([blank, head, Reserve] + Store(l, v, table), tail, Reserve);
      if v.IdentExp? {
        CountOfCons(blank, [], Reserve);
        assert [blank] == [blank] + [];
      }
    case Assign(l, v) =>
      var head := Comment(l.lexeme + " = " + RexpText(v));
      CountOfCons(blank, [head], Reserve);
      CountOfCons(head, [], Reserve);
      assert [blank, head] == [blank] + [head];
      assert [head] == [head] + [];
      StoreReservesNothing(l, v, table);
      CountOfAppend([blank, head], Store(l, v, table), Reserve);
  }

  /** Exactly one `sub rsp, 4` per `Declare` and `Initialize` and none per
      `Assign`; the frame around the statements reserves nothing. */
  lemma {:induction false} ReserveCount(ss: seq<P.Stmt>, table: S.SymTable)
    requires Known(ss, table)
    ensures CountOf(BodyCode(ss, table), Reserve) == Reserves(ss)
    ensures CountOf(GenAsmSpec(ss, table), Reserve) == Reserves(ss)
  {
    if ss != [] {
      var front := ss[..|ss| - 1];
      ReserveCount(front, table);
      StmtReserves(ss[|ss| - 1], table);
      CountOfAppend(BodyCode(front, table), StmtCode(ss[|ss| - 1], table), Reserve);
    }
    forall i | 0 <= i < |Prologue| ensures Prologue[i] != Reserve {
      assert Prologue[i].Label? || Prologue[i].text[0] == 'm';
    }
    CountOfAbsent(Prologue, Reserve);
    forall i | 0 <= i < |Epilogue| ensures Epilogue[i] != Reserve {
      assert Epilogue[i].Comment? || |Epilogue[i].text| != 10;
    }
    CountOfAbsent(Epilogue, Reserve);
    CountOfAppend(Prologue, BodyCode(ss, table), Reserve);
    CountOfAppend(Prologue + BodyCode(ss, table), Epilogue, Reserve);
  }

  // ---------------------------------------------------------------------
  // The symbol table of the semantic analysis

  /** A statement of the parser as the analysis sees it: a right-hand side
      is a single term. */
  function ToSemanticStmt(s: P.Stmt): S.Stmt {
    match s
    case Declare(x) => S.Declare(x)
    case Initialize(l, v) => S.Initialize(l, ToSemanticExp(v))
    case Assign(l, v) => S.Assign(l, ToSemanticExp(v))
  }

  function ToSemanticExp(v: P.RExp): S.RExp {
    match v
    case IntLit(lit) => S.Term(S.IntLit(lit))
    case IdentExp(id) => S.Term(S.Ident(id))
  }

  function ToSemantic(ss: seq<P.Stmt>): (r: seq<S.Stmt>)
    ensures |r| == |ss|
  {
    if ss == [] then [] else ToSemantic(ss[..|ss| - 1]) + [ToSemanticStmt(ss[|ss| - 1])]
  }

  /** A larger table knows at least as much. */
  lemma KnownGrows(ss: seq<P.Stmt>, t1: S.SymTable, t2: S.SymTable)
    requires Known(ss, t1) && t1.Keys <= t2.Keys
    ensures Known(ss, t2)
  {
    forall i | 0 <= i < |ss| ensures StmtKnown(ss[i], t2) {
      assert StmtKnown(ss[i], t1);
      match ss[i]
      case Declare(_) =>
      case Initialize(l, v) =>
        assert l.lexeme in t1.Keys;
        assert v.IdentExp? ==> v.id.lexeme in t1.Keys;
      case Assign(l, v) =>
        assert l.lexeme in t1.Keys;
        assert v.IdentExp? ==> v.id.lexeme in t1.Keys;
    }
  }

  /** A program the analysis accepts can be emitted: every name `genasm`
      looks up is in the table `analyze` returns, and the analysis
      allocated 4 bytes per `Declare` and `Initialize`. */
  lemma {:induction false} AnalysisMakesKnown(ss: seq<P.Stmt>)
    requires S.AnalyzeAll(ToSemantic(ss)).Ok?
    ensures Known(ss, S.AnalyzeAll(ToSemantic(ss)).value.table)
    ensures S.AnalyzeAll(ToSemantic(ss)).value.offset == S.SlotBytes * Reserves(ss)
  {
    if ss != [] {
      var front, last := ss[..|ss| - 1], ss[|ss| - 1];
      AnalyzeAllSnoc(ss);
      var r0 := S.AnalyzeAll(ToSemantic(front));
      AnalysisMakesKnown(front);
      var a0 := r0.value;
      var a := S.AnalyzeAll(ToSemantic(ss)).value;
      assert S.AnalyzeStmt(a0, ToSemanticStmt(last)) == Ok(a);
      assert a0.table.Keys <= a.table.Keys;
      KnownGrows(front, a0.table, a.table);
      match last
      case Declare(_) =>
      case Initialize(l, v) =>
        assert v.IdentExp? ==> v.id.lexeme in a0.table;
      case Assign(l, v) =>
        assert v.IdentExp? ==> v.id.lexeme in a0.table;
      assert StmtKnown(last, a.table);
    }
  }

  /** The stack space the code reserves is the space the analysis
      allocated: 4 bytes for every `sub rsp, 4`. */
  lemma ReservedIsAllocated(ss: seq<P.Stmt>)
    requires S.AnalyzeAll(ToSemantic(ss)).Ok?
    ensures Known(ss, S.AnalyzeAll(ToSemantic(ss)).value.table)
    ensures var a := S.AnalyzeAll(ToSemantic(ss)).value;
            S.SlotBytes * CountOf(GenAsmSpec(ss, a.table), Reserve) == a.offset
  {
    AnalysisMakesKnown(ss);
    ReserveCount(ss, S.AnalyzeAll(ToSemantic(ss)).value.table);
  }

  /** The target of an `Initialize` or `Assign`. */
  function Target(s: P.Stmt): P.Identifier
    requires !s.Declare?
  {
    if s.Initialize? then s.id else s.target
  }

  /** Statement `i` stores into a slot that a `sub rsp, 4` of this
      statement or an earlier one reserved, and a copy reads a slot that
      one before the statement reserved. */
  ghost predicate SlotsReservedAt(ss: seq<P.Stmt>, i: nat, t: S.SymTable)
    requires i < |ss| && !ss[i].Declare?
  {
    && Target(ss[i]).lexeme in t
    && 0 < t[Target(ss[i]).lexeme].rbpOffset <= S.SlotBytes * Reserves(ss[..i + 1])
    && (ss[i].value.IdentExp? ==>
          ss[i].value.id.lexeme in t && 0 < t[ss[i].value.id.lexeme].rbpOffset <= S.SlotBytes * Reserves(ss[..i]))
  }

  ghost predicate AllSlotsReserved(ss: seq<P.Stmt>, t: S.SymTable) {
    forall i :: 0 <= i < |ss| && !ss[i].Declare? ==> SlotsReservedAt(ss, i, t)
  }

  /** A step keeps the slot of every name the table already had. */
  lemma StepKeepsSlots(a: S.Analysis, s: P.Stmt, x: string)
    requires S.AnalyzeStmt(a, ToSemanticStmt(s)).Ok? && x in a.table
    ensures x in S.AnalyzeStmt(a, ToSemanticStmt(s)).value.table
    ensures S.AnalyzeStmt(a, ToSemanticStmt(s)).value.table[x].rbpOffset == a.table[x].rbpOffset
  {
  }

  /** An accepted statement has its names in the table: the copied name
      before the step, the target after it. */
  lemma StepKnows(a: S.Analysis, s: P.Stmt)
    requires S.AnalyzeStmt(a, ToSemanticStmt(s)).Ok? && !s.Declare?
    ensures Target(s).lexeme in S.AnalyzeStmt(a, ToSemanticStmt(s)).value.table
    ensures s.value.IdentExp? ==> s.value.id.lexeme in a.table
  {
  }

  lemma SlotsReservedGrow(ss: seq<P.Stmt>, last: P.Stmt, i: nat, t0: S.SymTable, t: S.SymTable)
    requires i < |ss| && !ss[i].Declare? && SlotsReservedAt(ss, i, t0)
    requires forall x :: x in t0 ==> x in t && t[x].rbpOffset == t0[x].rbpOffset
    ensures SlotsReservedAt(ss + [last], i, t)
  {
    var q := ss + [last];
    assert q[i] == ss[i] && q[..i + 1] == ss[..i + 1] && q[..i] == ss[..i];
  }

  /** The table of an analysis of `ss`: the slots of its stores are
      reserved, the running offset is 4 bytes per reservation and every
      slot lies within it. */
  ghost predicate SlotInvariant(ss: seq<P.Stmt>, a: S.Analysis) {
    && AllSlotsReserved(ss, a.table)
    && a.offset == S.SlotBytes * Reserves(ss)
    && forall x :: x in a.table ==> 0 < a.table[x].rbpOffset <= a.offset
  }

  /** The statement just analysed stores into, and copies from, reserved
      slots. */
  lemma LastSlotsReserved(front: seq<P.Stmt>, last: P.Stmt, a0: S.Analysis)
    requires S.AnalyzeStmt(a0, ToSemanticStmt(last)).Ok? && !last.Declare? && SlotInvariant(front, a0)
    ensures var ss, a := front + [last], S.AnalyzeStmt(a0, ToSemanticStmt(last)).value;
            a.offset == S.SlotBytes * Reserves(ss) && SlotsReservedAt(ss, |front|, a.table)
  {
    var ss := front + [last];
    assert ss[..|ss|] == ss && ss[..|front|] == front && ss[|front|] == last;
    assert ss[..|ss| - 1] == front;
    StepKnows(a0, last);
    var x := Target(last).lexeme;
    if last.value.IdentExp? {
      StepKeepsSlots(a0, last, last.value.id.lexeme);
    }
    if x in a0.table {
      StepKeepsSlots(a0, last, x);
    }
  }

  /** One step of the analysis keeps the invariant. */
  lemma SlotsStep(front: seq<P.Stmt>, last: P.Stmt, a0: S.Analysis)
    requires S.AnalyzeStmt(a0, ToSemanticStmt(last)).Ok? && SlotInvariant(front, a0)
    ensures SlotInvariant(front + [last], S.AnalyzeStmt(a0, ToSemanticStmt(last)).value)
  {
    var ss, a := front + [last], S.AnalyzeStmt(a0, ToSemanticStmt(last)).value;
    assert ss[..|ss| - 1] == front && ss[|ss| - 1] == last;
    forall x | x in a0.table ensures x in a.table && a.table[x].rbpOffset == a0.table[x].rbpOffset {
      StepKeepsSlots(a0, last, x);
    }
    forall i | 0 <= i < |front| && !front[i].Declare? ensures SlotsReservedAt(ss, i, a.table) {
      SlotsReservedGrow(front, last, i, a0.table, a.table);
    }
    if !last.Declare? {
      LastSlotsReserved(front, last, a0);
    }
  }

  /** Every store of the emitted code addresses a reserved slot, as a
      consequence of the analysis: offsets in the table are positive and
      at most the running offset, every name keeps its slot, and a new
      name gets the slot just reserved. */
  lemma {:induction false} StoresAddressReservedSlots(ss: seq<P.Stmt>)
    requires S.AnalyzeAll(ToSemantic(ss)).Ok?
    ensures SlotInvariant(ss, S.AnalyzeAll(ToSemantic(ss)).value)
  {
    if ss != [] {
      var front, last := ss[..|ss| - 1], ss[|ss| - 1];
      AnalyzeAllSnoc(ss);
      StoresAddressReservedSlots(front);
      SlotsStep(front, last, S.AnalyzeAll(ToSemantic(front)).value);
      assert ss == front + [last];
    }
  }

  /** The analysis of a non-empty program is that of its front, followed
      by one step on its last statement. */
  lemma AnalyzeAllSnoc(ss: seq<P.Stmt>)
    requires ss != [] && S.AnalyzeAll(ToSemantic(ss)).Ok?
    ensures S.AnalyzeAll(ToSemantic(ss[..|ss| - 1])).Ok?
    ensures S.AnalyzeStmt(S.AnalyzeAll(ToSemantic(ss[..|ss| - 1])).value, ToSemanticStmt(ss[|ss| - 1]))
            == S.AnalyzeAll(ToSemantic(ss))
  {
    var ts, n := ToSemantic(ss), |ss| - 1;
    ToSemanticSnoc(ss);
    S.AnalyzeStep(ts, n);
    assert S.AnalyzeAll(ts[..n + 1]) == S.AnalyzeAll(ts);
  }

  /** The translation of a non-empty program ends with that of its last
      statement. */
  lemma ToSemanticSnoc(ss: seq<P.Stmt>)
    requires ss != []
    ensures var ts, n := ToSemantic(ss), |ss| - 1;
            ts[..n] == ToSemantic(ss[..n]) && ts[n] == ToSemanticStmt(ss[n]) && ts[..n + 1] == ts
  {
    var ts, n := ToSemantic(ss), |ss| - 1;
    assert ts == ToSemantic(ss[..n]) + [ToSemanticStmt(ss[n])];
  }

  /** The same, for one statement. */
  lemma StoreSlotReserved(ss: seq<P.Stmt>, i: nat)
    requires S.AnalyzeAll(ToSemantic(ss)).Ok? && i < |ss| && !ss[i].Declare?
    ensures SlotsReservedAt(ss, i, S.AnalyzeAll(ToSemantic(ss)).value.table)
  {
    StoresAddressReservedSlots(ss);
  }
}
