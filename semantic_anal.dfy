/** The flat semantic analysis of src/semantic_anal.rs. It works on the
    program tree of its own parser generation: terms are integer literals
    and identifiers, an expression is a term followed by `+ term` and
    `- term` (left-nested), and a statement is a declaration, an
    initialisation, an assignment or a bare expression.

    `analyze` walks the statements once with a single symbol table, gives
    every new name the next 4-byte slot, and stops at the first
    redeclaration, use of an undeclared name or read of an uninitialised
    one. */
module SemanticAnalysis {
  import opened Common
  import A = Ast

  type Identifier = A.Identifier
  type IntLiteral = A.IntLiteral

  datatype Term = IntLit(lit: IntLiteral) | Ident(id: Identifier)

  datatype RExp =
    | Term(term: Term)
    | Add(lhs: RExp, rhs: Term)
    | Sub(lhs: RExp, rhs: Term)

  datatype Stmt =
    | Declare(id: Identifier)
    | Initialize(id: Identifier, value: RExp)
    | Assign(target: Identifier, value: RExp)
    | ExprStmt(exp: RExp)

  datatype Symbol = Symbol(ident: Identifier, rbpOffset: nat, initialized: bool)

  /** `SematicError` */
  datatype SemanticError =
    | RedeclareIdent(ident: Identifier)
    | UseOfUndeclaredIdent(ident: Identifier)
    | UseOfUninitializedIdent(ident: Identifier)

  type SymTable = map<string, Symbol>

  /** Bytes `analyze` reserves per variable. */
  const SlotBytes: nat := 4

  /** `analyze_term` */
  function AnalyzeTerm(t: Term, table: SymTable): Result<(), SemanticError> {
    match t
    case IntLit(_) => Ok(())
    case Ident(id) =>
      if id.lexeme !in table then Err(UseOfUndeclaredIdent(id))
      else if !table[id.lexeme].initialized then Err(UseOfUninitializedIdent(id))
      else Ok(())
  }

  /** `analyze_rexp`: the left operand before the right term. */
  function AnalyzeRexp(e: RExp, table: SymTable): Result<(), SemanticError> {
    if e.Term? then AnalyzeTerm(e.term, table)
    else
      var left := AnalyzeRexp(e.lhs, table);
      if left.Err? then left else AnalyzeTerm(e.rhs, table)
  }

  // ---------------------------------------------------------------------
  // Reads, as a reference for the expression check

  /** The identifiers an expression reads, left to right. */
  function Reads(e: RExp): seq<Identifier> {
    if e.Term? then TermReads(e.term) else Reads(e.lhs) + TermReads(e.rhs)
  }

  function TermReads(t: Term): seq<Identifier> {
    if t.Ident? then [t.id] else []
  }

  /** What is wrong with reading `id`, if anything. */
  function ReadError(id: Identifier, table: SymTable): Option<SemanticError> {
    if id.lexeme !in table then Some(UseOfUndeclaredIdent(id))
    else if !table[id.lexeme].initialized then Some(UseOfUninitializedIdent(id))
    else None
  }

  function FirstError(ids: seq<Identifier>, table: SymTable): Option<SemanticError> {
    if ids == [] then None
    else if ReadError(ids[0], table).Some? then ReadError(ids[0], table)
    else FirstError(ids[1..], table)
  }

  lemma {:induction false} FirstErrorAppend(a: seq<Identifier>, b: seq<Identifier>, table: SymTable)
    ensures FirstError(a + b, table) == if FirstError(a, table).Some? then FirstError(a, table) else FirstError(b, table)
  {
    if a == [] {
      assert a + b == b;
    } else {
      assert (a + b)[0] == a[0] && (a + b)[1..] == a[1..] + b;
      FirstErrorAppend(a[1..], b, table);
    }
  }

  /** An expression is accepted exactly when every identifier it reads is
      declared and initialised, and otherwise the error is about the
      leftmost identifier that is not. */
  lemma {:induction false} AnalyzeRexpFirstError(e: RExp, table: SymTable)
    ensures AnalyzeRexp(e, table) == if FirstError(Reads(e), table).Some? then Err(FirstError(Reads(e), table).value) else Ok(())
  {
    if !e.Term? {
      AnalyzeRexpFirstError(e.lhs, table);
      FirstErrorAppend(Reads(e.lhs), TermReads(e.rhs), table);
      assert TermReads(e.rhs) == [] || TermReads(e.rhs)[1..] == [];
    }
  }

  // ---------------------------------------------------------------------
  // The analysis, as a function of the statements

  /** The symbol table and the running `current_rbp_offset`. */
  datatype Analysis = Analysis(table: SymTable, offset: nat)

  /** One iteration of `analyze`'s loop. */
  function AnalyzeStmt(a: Analysis, s: Stmt): (r: Result<Analysis, SemanticError>)
    ensures (s.Declare? || s.Initialize?) && s.id.lexeme in a.table ==> r == Err(RedeclareIdent(a.table[s.id.lexeme].ident))
    ensures r.Ok? && (s.Declare? || s.Initialize?) ==>
              s.id.lexeme !in a.table && r.value.offset == a.offset + SlotBytes
              && r.value.table == a.table[s.id.lexeme := Symbol(s.id, a.offset + SlotBytes, s.Initialize?)]
    ensures r.Ok? && s.Assign? ==>
              s.target.lexeme in a.table && r.value.offset == a.offset
              && r.value.table == a.table[s.target.lexeme := a.table[s.target.lexeme].(initialized := true)]
    ensures r.Ok? && s.ExprStmt? ==> r.value == a
  {
    match s
    case Declare(id) =>
      if id.lexeme in a.table then Err(RedeclareIdent(a.table[id.lexeme].ident))
      else Ok(Analysis(a.table[id.lexeme := Symbol(id, a.offset + SlotBytes, false)], a.offset + SlotBytes))
    case Initialize(id, e) =>
      if id.lexeme in a.table then Err(RedeclareIdent(a.table[id.lexeme].ident))
      else
        (match AnalyzeRexp(e, a.table)
         case Err(err) => Err(err)
         case Ok(_) => Ok(Analysis(a.table[id.lexeme := Symbol(id, a.offset + SlotBytes, true)], a.offset + SlotBytes)))
    case Assign(target, e) =>
      (match AnalyzeRexp(e, a.table)
       case Err(err) => Err(err)
       case Ok(_) =>
         if target.lexeme !in a.table then Err(UseOfUndeclaredIdent(target))
         else Ok(Analysis(a.table[target.lexeme := a.table[target.lexeme].(initialized := true)], a.offset)))
    case ExprStmt(e) =>
      (match AnalyzeRexp(e, a.table)
       case Err(err) => Err(err)
       case Ok(_) => Ok(a))
  }

  /** `analyze` on the first statements, from an empty table. */
  function AnalyzeAll(ss: seq<Stmt>): Result<Analysis, SemanticError> {
    if ss == [] then Ok(Analysis(map[], 0))
    else
      match AnalyzeAll(ss[..|ss| - 1])
      case Err(err) => Err(err)
      case Ok(a) => AnalyzeStmt(a, ss[|ss| - 1])
  }

  /** The identifiers that introduce names, in program order. */
  function Introduced(ss: seq<Stmt>): seq<Identifier> {
    if ss == [] then []
    else
      var last := ss[|ss| - 1];
      Introduced(ss[..|ss| - 1]) + (if last.Declare? || last.Initialize? then [last.id] else [])
  }

  /** After a successful analysis the table holds exactly the introduced
      names; the i-th introduced name sits at offset 4 * (i + 1) and keeps
      the identifier that introduced it, and the running offset is 4 per
      name. */
  lemma {:induction false} AnalyzeLayout(ss: seq<Stmt>)
    requires AnalyzeAll(ss).Ok?
    ensures var a, ids := AnalyzeAll(ss).value, Introduced(ss);
            a.offset == SlotBytes * |ids|
            && a.table.Keys == (set i | 0 <= i < |ids| :: ids[i].lexeme)
            && forall i :: 0 <= i < |ids| ==>
                 a.table[ids[i].lexeme].rbpOffset == SlotBytes * (i + 1) && a.table[ids[i].lexeme].ident == ids[i]
  {
    if ss != [] {
      var front, last := ss[..|ss| - 1], ss[|ss| - 1];
      AnalyzeLayout(front);
      var a0, ids0 := AnalyzeAll(front).value, Introduced(front);
      var a, ids := AnalyzeAll(ss).value, Introduced(ss);
      if last.Declare? || last.Initialize? {
        assert ids == ids0 + [last.id];
        forall i | 0 <= i < |ids0| ensures ids0[i].lexeme != last.id.lexeme {
          assert ids0[i].lexeme in a0.table.Keys;
        }
        assert a.table.Keys == a0.table.Keys + {last.id.lexeme};
        assert forall i :: 0 <= i < |ids0| ==> ids[i] == ids0[i];
        assert (set i | 0 <= i < |ids| :: ids[i].lexeme) == (set i | 0 <= i < |ids0| :: ids0[i].lexeme) + {last.id.lexeme} by {
          assert ids[|ids0|].lexeme == last.id.lexeme;
        }
      } else {
        assert ids == ids0;
      }
    }
  }

  /** Offsets strictly increase in declaration order, so no two names
      share a slot. */
  lemma OffsetsIncrease(ss: seq<Stmt>, i: nat, j: nat)
    requires AnalyzeAll(ss).Ok? && i < j < |Introduced(ss)|
    ensures var a, ids := AnalyzeAll(ss).value, Introduced(ss);
            ids[i].lexeme != ids[j].lexeme && ids[i].lexeme in a.table && ids[j].lexeme in a.table
            && a.table[ids[i].lexeme].rbpOffset < a.table[ids[j].lexeme].rbpOffset
  {
    AnalyzeLayout(ss);
  }

  /** `let x = x;` reads `x` before introducing it. */
  lemma SelfInitializationFails(x: Identifier)
    ensures AnalyzeAll([Initialize(x, Term(Ident(x)))]) == Err(UseOfUndeclaredIdent(x))
  {
    assert [Initialize(x, Term(Ident(x)))][..0] == [];
  }

  // ---------------------------------------------------------------------
  // `analyze`

  /** `analyze`: the loop over the statements with its symbol table and
      running offset. */
  method Analyze(program: seq<Stmt>) returns (r: Result<SymTable, SemanticError>)
    ensures r == match AnalyzeAll(program) case Ok(a) => Ok(a.table) case Err(err) => Err(err)
  {
    var symtable: SymTable := map[];
    var currentRbpOffset: nat := 0;
    for i := 0 to |program|
      invariant AnalyzeAll(program[..i]) == Ok(Analysis(symtable, currentRbpOffset))
    {
      AnalyzeStep(program, i);
      match program[i]
      case Declare(id) =>
        if id.lexeme in symtable {
          AnalyzeStops(program, i + 1);
          return Err(RedeclareIdent(symtable[id.lexeme].ident));
        }
        currentRbpOffset := currentRbpOffset + SlotBytes;
        symtable := symtable[id.lexeme := Symbol(id, currentRbpOffset, false)];
      case Initialize(id, e) =>
        if id.lexeme in symtable {
          AnalyzeStops(program, i + 1);
          return Err(RedeclareIdent(symtable[id.lexeme].ident));
        }
        var res := AnalyzeRexp(e, symtable);
        if res.Err? {
          AnalyzeStops(program, i + 1);
          return Err(res.error);
        }
        currentRbpOffset := currentRbpOffset + SlotBytes;
        symtable := symtable[id.lexeme := Symbol(id, currentRbpOffset, true)];
      case Assign(target, e) =>
        var res := AnalyzeRexp(e, symtable);
        if res.Err? {
          AnalyzeStops(program, i + 1);
          return Err(res.error);
        }
        if target.lexeme !in symtable {
          AnalyzeStops(program, i + 1);
          return Err(UseOfUndeclaredIdent(target));
        }
        symtable := symtable[target.lexeme := symtable[target.lexeme].(initialized := true)];
      case ExprStmt(e) =>
        var res := AnalyzeRexp(e, symtable);
        if res.Err? {
          AnalyzeStops(program, i + 1);
          return Err(res.error);
        }
    }
    assert program[..|program|] == program;
    return Ok(symtable);
  }

  /** Once a prefix fails, the whole program fails the same way. */
  lemma {:induction false} AnalyzeStops(ss: seq<Stmt>, n: nat)
    requires n <= |ss| && AnalyzeAll(ss[..n]).Err?
    ensures AnalyzeAll(ss) == AnalyzeAll(ss[..n])
    decreases |ss|
  {
    if n < |ss| {
      var front := ss[..|ss| - 1];
      assert front[..n] == ss[..n];
      AnalyzeStops(front, n);
    } else {
      assert ss[..n] == ss;
    }
  }

  /** One more statement: `AnalyzeAll` of a longer prefix is one `AnalyzeStmt`
      after the shorter one. */
  lemma AnalyzeStep(ss: seq<Stmt>, i: nat)
    requires i < |ss|
    ensures AnalyzeAll(ss[..i + 1]) == match AnalyzeAll(ss[..i]) case Err(err) => Err(err) case Ok(a) => AnalyzeStmt(a, ss[i])
  {
    assert ss[..i + 1][..i] == ss[..i];
    assert ss[..i + 1][i] == ss[i];
  }
}
