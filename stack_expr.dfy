/** The expression grammar shared by the two code-generator snapshots
    (src/codegen/codegen.rs and src/codegen.rs have the same `Term` and
    `RExp` lowering, line for line) and the stack-machine lowering of
    expressions: every expression pushes exactly one value. */
module StackExpr {
  import opened Common
  import opened Ast
  import opened Strings
  import opened AsmText
  import opened ScopeEnv

  /** Lines an emission appended, and the identifier that stopped it when
      one had no visible symbol (the source then returns early). */
  datatype Emission = Emission(code: seq<Line>, undeclared: Option<Identifier>)

  /** The lines the closure passed to `binary_operator` emits. */
  function OperatorLines(op: BinOp): seq<Line> {
    match op
    case Add => [Instr("add rax, rbx")]
    case Sub => [Instr("sub rax, rbx")]
    case Mul => [Instr("mul rbx")]
    case Div => [Instr("xor rdx, rdx"), Instr("div rbx")]
    case Equal => [Instr("cmp rax, rbx"), Instr("sete al"), Instr("and rax, 255")]
    case NotEqual => [Instr("cmp rax, rbx"), Instr("setne al"), Instr("and rax, 255")]
    case Less => [Instr("cmp rax, rbx"), Instr("setl al"), Instr("and rax, 255")]
    case LessEqual => [Instr("cmp rax, rbx"), Instr("setle al"), Instr("and rax, 255")]
    case Greater => [Instr("cmp rax, rbx"), Instr("setg al"), Instr("and rax, 255")]
    case GreaterEqual => [Instr("cmp rax, rbx"), Instr("setge al"), Instr("and rax, 255")]
  }

  function PushSlot(offset: nat): (s: string)
    ensures StartsWith(s, "push")
  {
    var s := "push qword [rbp-" + NatToString(offset) + "]";
    assert s[..4] == "push";
    s
  }

  function StoreSlot(offset: nat): string {
    "mov qword [rbp-" + NatToString(offset) + "], rax"
  }

  /** `ident`: push the variable's slot, or fail when no symbol is visible. */
  function IdentCode(id: Identifier, chain: seq<Scope>): Emission {
    match Lookup(chain, id.lexeme)
    case None => Emission([], Some(id))
    case Some(sym) =>
      Emission([Instr(""), Comment(sym.decoratedLexeme), Instr(PushSlot(sym.rbpOffset))], None)
  }

  /** `intlit`: load the literal into rax and push it. */
  function IntLitCode(lit: IntLiteral): seq<Line> {
    [Instr(""), Comment(lit.lexeme), Instr("mov rax, " + lit.lexeme), Instr("push rax")]
  }

  /** `term` */
  function TermCode(t: Term, chain: seq<Scope>): Emission
    decreases t
  {
    match t
    case Ident(id) => IdentCode(id, chain)
    case IntLit(lit) => Emission(IntLitCode(lit), None)
    case Neg(inner) =>
      var e := TermCode(inner, chain);
      if e.undeclared.Some? then e
      else Emission(e.code + NegTail(t), None)
    case Bracketed(exp) => ExpCode(exp, chain)
  }

  /** What `term` emits after the operand of a negation. */
  function NegTail(t: Term): seq<Line> {
    [Instr("pop rax"), Instr(""), Comment(ShowTerm(t)), Instr("neg rax"), Instr("push rax")]
  }

  /** `binary_operator`: both operands, then pop them, operate, push. */
  function BinaryTail(e: RExp): seq<Line>
    requires e.Binary?
  {
    [Instr(""), Comment(ShowExp(e)), Instr("pop rbx"), Instr("pop rax")] + OperatorLines(e.op) + [Instr("push rax")]
  }

  /** `rexp` */
  function ExpCode(e: RExp, chain: seq<Scope>): Emission
    decreases e
  {
    match e
    case Term(t) => TermCode(t, chain)
    case Binary(op, l, r) =>
      var left := ExpCode(l, chain);
      if left.undeclared.Some? then left
      else
        var right := ExpCode(r, chain);
        if right.undeclared.Some? then Emission(left.code + right.code, right.undeclared)
        else Emission(left.code + right.code + BinaryTail(e), None)
  }

  // ---------------------------------------------------------------------
  // Which identifier stops the lowering

  /** The identifiers of an expression, left to right. */
  function TermIdents(t: Term): seq<Identifier> {
    match t
    case Ident(id) => [id]
    case IntLit(_) => []
    case Neg(inner) => TermIdents(inner)
    case Bracketed(e) => ExpIdents(e)
  }

  function ExpIdents(e: RExp): seq<Identifier> {
    match e
    case Term(t) => TermIdents(t)
    case Binary(_, l, r) => ExpIdents(l) + ExpIdents(r)
  }

  /** The first identifier of `ids` with no visible symbol. */
  function FirstUnresolved(ids: seq<Identifier>, chain: seq<Scope>): Option<Identifier> {
    if ids == [] then None
    else if Lookup(chain, ids[0].lexeme).None? then Some(ids[0])
    else FirstUnresolved(ids[1..], chain)
  }

  lemma {:induction false} FirstUnresolvedAppend(a: seq<Identifier>, b: seq<Identifier>, chain: seq<Scope>)
    ensures FirstUnresolved(a + b, chain)
         == if FirstUnresolved(a, chain).Some? then FirstUnresolved(a, chain) else FirstUnresolved(b, chain)
  {
    if a != [] {
      assert (a + b)[0] == a[0] && (a + b)[1..] == a[1..] + b;
      FirstUnresolvedAppend(a[1..], b, chain);
    } else {
      assert a + b == b;
    }
  }

  /** `FirstUnresolved` is `None` exactly when every identifier resolves. */
  lemma {:induction false} FirstUnresolvedNoneIff(ids: seq<Identifier>, chain: seq<Scope>)
    ensures FirstUnresolved(ids, chain).None?
        <==> forall i :: 0 <= i < |ids| ==> Lookup(chain, ids[i].lexeme).Some?
  {
    if ids != [] {
      FirstUnresolvedNoneIff(ids[1..], chain);
      assert forall i :: 1 <= i < |ids| ==> ids[i] == ids[1..][i - 1];
    }
  }

  /** Lowering an expression fails exactly on its first identifier (left to
      right) that has no visible symbol, and succeeds when every identifier
      resolves: an undeclared read is `Err(UndeclaredIdent)`. */
  lemma {:induction false} ExpFailsOnFirstUnresolved(e: RExp, chain: seq<Scope>)
    ensures ExpCode(e, chain).undeclared == FirstUnresolved(ExpIdents(e), chain)
    decreases e
  {
    match e
    case Term(t) => TermFailsOnFirstUnresolved(t, chain);
    case Binary(op, l, r) =>
      ExpFailsOnFirstUnresolved(l, chain);
      ExpFailsOnFirstUnresolved(r, chain);
      FirstUnresolvedAppend(ExpIdents(l), ExpIdents(r), chain);
  }

  lemma {:induction false} TermFailsOnFirstUnresolved(t: Term, chain: seq<Scope>)
    ensures TermCode(t, chain).undeclared == FirstUnresolved(TermIdents(t), chain)
    decreases t
  {
    match t
    case Ident(id) =>
      assert [id][1..] == [];
    case IntLit(_) =>
    case Neg(inner) => TermFailsOnFirstUnresolved(inner, chain);
    case Bracketed(exp) => ExpFailsOnFirstUnresolved(exp, chain);
  }

  // ---------------------------------------------------------------------
  // Stack discipline

  /** No prefix of `code` pops more than `depth` values it did not push:
      run from a stack holding `depth` values, it never underflows them. */
  ghost predicate StaysAbove(code: seq<Line>, depth: nat) {
    forall k :: 0 <= k <= |code| ==> Net(code[..k]) + depth >= 0
  }

  lemma StaysAboveAppend(a: seq<Line>, b: seq<Line>, depth: nat)
    requires StaysAbove(a, depth)
    requires depth + Net(a) >= 0 && StaysAbove(b, depth + Net(a))
    ensures StaysAbove(a + b, depth)
  {
    forall k | 0 <= k <= |a + b| ensures Net((a + b)[..k]) + depth >= 0 {
      if k <= |a| {
        assert (a + b)[..k] == a[..k];
      } else {
        assert (a + b)[..k] == a + b[..k - |a|];
        NetAppend(a, b[..k - |a|]);
      }
    }
  }

  /** Net effects add up, and the low-water marks compose. */
  lemma Sequenced(a: seq<Line>, b: seq<Line>, depth: nat)
    requires StaysAbove(a, depth)
    requires depth + Net(a) >= 0 && StaysAbove(b, depth + Net(a))
    ensures Net(a + b) == Net(a) + Net(b) && StaysAbove(a + b, depth)
  {
    NetAppend(a, b);
    StaysAboveAppend(a, b, depth);
  }

  lemma StaysAboveRaise(code: seq<Line>, depth: nat, depth': nat)
    requires StaysAbove(code, depth) && depth <= depth'
    ensures StaysAbove(code, depth')
  {
  }

  /** Lines none of whose instructions starts with `p` neither push nor pop. */
  lemma QuietLines(code: seq<Line>)
    requires forall i :: 0 <= i < |code| ==> !code[i].Instr? || code[i].text == [] || code[i].text[0] != 'p'
    ensures Neutral(code) && Net(code) == 0 && StaysAbove(code, 0)
  {
    NeutralNet(code);
  }

  /** Effect of one line: +1 and no underflow for a push, -1 and one value
      consumed for a pop, nothing otherwise. */
  lemma OneLine(l: Line)
    ensures IsPush(l) ==> Net([l]) == 1 && StaysAbove([l], 0)
    ensures IsPop(l) ==> Net([l]) == -1 && StaysAbove([l], 1)
    ensures !IsPush(l) && !IsPop(l) ==> Net([l]) == 0 && StaysAbove([l], 0)
  {
    assert [l][..0] == [] && [l][..1] == [l];
    if IsPush(l) {
      assert l.text[1] == 'u';
    }
  }

  /** A run of lines with no push and no pop. */
  ghost predicate Neutral(code: seq<Line>) {
    forall i :: 0 <= i < |code| ==> !IsPush(code[i]) && !IsPop(code[i])
  }

  lemma {:induction false} NeutralNet(code: seq<Line>)
    requires Neutral(code)
    ensures forall k :: 0 <= k <= |code| ==> Net(code[..k]) == 0
    ensures Net(code) == 0 && StaysAbove(code, 0)
  {
    assert code[..|code|] == code;
    if code != [] {
      var c' := code[..|code| - 1];
      assert forall i :: 0 <= i < |c'| ==> c'[i] == code[i];
      NeutralNet(c');
      forall k | 0 <= k <= |code| ensures Net(code[..k]) == 0 {
        if k < |code| {
          assert code[..k] == c'[..k];
        } else {
          assert code[..k][..k - 1] == c';
        }
      }
    }
  }

  /** The lines between the operand pops and the result push. */
  lemma OperatorLinesNeutral(op: BinOp)
    ensures Neutral(OperatorLines(op))
  {
    var ops := OperatorLines(op);
    forall i | 0 <= i < |ops| ensures !IsPush(ops[i]) && !IsPop(ops[i]) {
      assert ops[i].text[0] in {'a', 'm', 'x', 'd', 'c', 's'};
    }
  }

  /** `s` starts with a letter other than `p`: neither a push nor a pop. */
  lemma NotStack(s: string)
    requires |s| > 0 && s[0] != 'p'
    ensures !IsPush(Instr(s)) && !IsPop(Instr(s))
  {
  }

  /** `neutral`, then a push. */
  lemma NeutralThenPush(neutral: seq<Line>, push: Line)
    requires Neutral(neutral) && IsPush(push)
    ensures Net(neutral + [push]) == 1 && StaysAbove(neutral + [push], 0)
  {
    NeutralNet(neutral);
    OneLine(push);
    NetAppend(neutral, [push]);
    StaysAboveAppend(neutral, [push], 0);
  }

  /** Two pops, neutral lines, one push: consumes two values, leaves one. */
  lemma PopTwoPushOne(head: seq<Line>, popB: Line, popA: Line, ops: seq<Line>, push: Line)
    requires Neutral(head) && IsPop(popB) && IsPop(popA) && Neutral(ops) && IsPush(push)
    ensures Net(head + [popB] + [popA] + (ops + [push])) == -1
    ensures StaysAbove(head + [popB] + [popA] + (ops + [push]), 2)
  {
    NeutralNet(head);
    OneLine(popB);
    OneLine(popA);
    NeutralThenPush(ops, push);
    NetAppend(head, [popB]);
    StaysAboveAppend(head, [popB], 2);
    NetAppend(head + [popB], [popA]);
    StaysAboveAppend(head + [popB], [popA], 2);
    NetAppend(head + [popB] + [popA], ops + [push]);
    StaysAboveAppend(head + [popB] + [popA], ops + [push], 2);
  }

  lemma BinaryTailEffect(e: RExp)
    requires e.Binary?
    ensures Net(BinaryTail(e)) == -1 && StaysAbove(BinaryTail(e), 2)
  {
    var head := [Instr(""), Comment(ShowExp(e))];
    var ops := OperatorLines(e.op);
    assert BinaryTail(e) == head + [Instr("pop rbx")] + [Instr("pop rax")] + (ops + [Instr("push rax")]);
    OperatorLinesNeutral(e.op);
    PopTwoPushOne(head, Instr("pop rbx"), Instr("pop rax"), ops, Instr("push rax"));
  }

  /** Every successful expression lowering pushes exactly one value more than
      it pops, and never pops a value of its caller: a stack-machine
      expression leaves its result on top of the stack. */
  lemma {:induction false} ExpStackEffect(e: RExp, chain: seq<Scope>)
    requires ExpCode(e, chain).undeclared.None?
    ensures Net(ExpCode(e, chain).code) == 1 && StaysAbove(ExpCode(e, chain).code, 0)
    decreases e
  {
    match e
    case Term(t) => TermStackEffect(t, chain);
    case Binary(op, l, r) =>
      var lc, rc := ExpCode(l, chain).code, ExpCode(r, chain).code;
      ExpStackEffect(l, chain);
      ExpStackEffect(r, chain);
      BinaryTailEffect(e);
      NetAppend(lc, rc);
      StaysAboveAppend(lc, rc, 0);
      NetAppend(lc + rc, BinaryTail(e));
      StaysAboveAppend(lc + rc, BinaryTail(e), 0);
  }

  lemma {:induction false} TermStackEffect(t: Term, chain: seq<Scope>)
    requires TermCode(t, chain).undeclared.None?
    ensures Net(TermCode(t, chain).code) == 1 && StaysAbove(TermCode(t, chain).code, 0)
    decreases t
  {
    match t
    case Ident(id) =>
      IdentStackEffect(t, chain);
    case IntLit(lit) =>
      IntLitStackEffect(lit);
    case Neg(inner) =>
      TermStackEffect(inner, chain);
      NegStackEffect(t, chain);
    case Bracketed(exp) => ExpStackEffect(exp, chain);
  }

  lemma IdentStackEffect(t: Term, chain: seq<Scope>)
    requires t.Ident? && TermCode(t, chain).undeclared.None?
    ensures Net(TermCode(t, chain).code) == 1 && StaysAbove(TermCode(t, chain).code, 0)
  {
    var sym := Lookup(chain, t.id.lexeme).value;
    assert TermCode(t, chain).code == [Instr(""), Comment(sym.decoratedLexeme)] + [Instr(PushSlot(sym.rbpOffset))];
    NeutralThenPush([Instr(""), Comment(sym.decoratedLexeme)], Instr(PushSlot(sym.rbpOffset)));
  }

  lemma IntLitStackEffect(lit: IntLiteral)
    ensures Net(IntLitCode(lit)) == 1 && StaysAbove(IntLitCode(lit), 0)
  {
    var mov := "mov rax, " + lit.lexeme;
    assert mov[0] == 'm';
    NotStack(mov);
    assert IntLitCode(lit) == [Instr(""), Comment(lit.lexeme), Instr(mov)] + [Instr("push rax")];
    NeutralThenPush([Instr(""), Comment(lit.lexeme), Instr(mov)], Instr("push rax"));
  }

  /** Negation pops the operand and pushes the result. */
  lemma NegStackEffect(t: Term, chain: seq<Scope>)
    requires t.Neg? && TermCode(t, chain).undeclared.None?
    requires Net(TermCode(t.inner, chain).code) == 1 && StaysAbove(TermCode(t.inner, chain).code, 0)
    ensures Net(TermCode(t, chain).code) == 1 && StaysAbove(TermCode(t, chain).code, 0)
  {
    var ic := TermCode(t.inner, chain).code;
    var pop, mid, push := Instr("pop rax"), [Instr(""), Comment(ShowTerm(t)), Instr("neg rax")], Instr("push rax");
    assert TermCode(t, chain).code == ic + [pop] + (mid + [push]);
    OneLine(pop);
    NotStack("neg rax");
    NeutralThenPush(mid, push);
    NetAppend(ic, [pop]);
    StaysAboveAppend(ic, [pop], 0);
    NetAppend(ic + [pop], mid + [push]);
    StaysAboveAppend(ic + [pop], mid + [push], 0);
  }

  lemma BinaryTailDefinesNoLabels(e: RExp)
    requires e.Binary?
    ensures LabelsOf(BinaryTail(e)) == []
  {
    var head := [Instr(""), Comment(ShowExp(e)), Instr("pop rbx"), Instr("pop rax")];
    var ops := OperatorLines(e.op);
    assert forall i :: 0 <= i < |ops| ==> ops[i].Instr?;
    NoLabelLines(head);
    NoLabelLines(ops);
    NoLabelLines([Instr("push rax")]);
    LabelsOfAppend(head, ops);
    LabelsOfAppend(head + ops, [Instr("push rax")]);
  }

  /** Expression code defines no labels. */
  lemma {:induction false} ExpDefinesNoLabels(e: RExp, chain: seq<Scope>)
    ensures LabelsOf(ExpCode(e, chain).code) == []
    decreases e
  {
    match e
    case Term(t) => TermDefinesNoLabels(t, chain);
    case Binary(op, l, r) =>
      var lc, rc := ExpCode(l, chain).code, ExpCode(r, chain).code;
      ExpDefinesNoLabels(l, chain);
      ExpDefinesNoLabels(r, chain);
      LabelsOfAppend(lc, rc);
      if ExpCode(r, chain).undeclared.None? {
        LabelsOfAppend(lc + rc, BinaryTail(e));
        BinaryTailDefinesNoLabels(e);
      }
  }

  lemma {:induction false} TermDefinesNoLabels(t: Term, chain: seq<Scope>)
    ensures LabelsOf(TermCode(t, chain).code) == []
    decreases t
  {
    match t
    case Ident(id) => NoLabelLines(TermCode(t, chain).code);
    case IntLit(lit) => NoLabelLines(IntLitCode(lit));
    case Neg(inner) =>
      TermDefinesNoLabels(inner, chain);
      var tail := NegTail(t);
      if TermCode(inner, chain).undeclared.None? {
        LabelsOfAppend(TermCode(inner, chain).code, tail);
        NoLabelLines(tail);
      }
    case Bracketed(exp) => ExpDefinesNoLabels(exp, chain);
  }

  lemma {:induction false} NoLabelLines(code: seq<Line>)
    requires forall i :: 0 <= i < |code| ==> !code[i].Label?
    ensures LabelsOf(code) == []
  {
    if code != [] {
      NoLabelLines(code[..|code| - 1]);
    }
  }

  /** Lines none of whose instructions starts with `j` hold no jump. */
  lemma NoJumpLines(code: seq<Line>)
    requires forall i :: 0 <= i < |code| ==> !code[i].Instr? || code[i].text == [] || code[i].text[0] != 'j'
    ensures NoJumps(code)
  {
    forall i | 0 <= i < |code| ensures !IsJump(code[i]) {
      if code[i].Instr? && |code[i].text| >= 3 {
        assert code[i].text[..3][0] == code[i].text[0];
      }
    }
  }

  /** Expression code jumps nowhere. */
  lemma {:induction false} ExpNoJumps(e: RExp, chain: seq<Scope>)
    ensures NoJumps(ExpCode(e, chain).code)
    decreases e
  {
    match e
    case Term(t) => TermNoJumps(t, chain);
    case Binary(op, l, r) =>
      var lc, rc := ExpCode(l, chain).code, ExpCode(r, chain).code;
      ExpNoJumps(l, chain);
      ExpNoJumps(r, chain);
      NoJumpsAppend(lc, rc);
      if ExpCode(l, chain).undeclared.None? && ExpCode(r, chain).undeclared.None? {
        var ops := OperatorLines(e.op);
        assert forall i :: 0 <= i < |ops| ==> ops[i].text[0] != 'j' by {
          forall i | 0 <= i < |ops| ensures ops[i].text[0] != 'j' {
            assert ops[i].text[0] in {'a', 'm', 'x', 'd', 'c', 's'};
          }
        }
        NoJumpLines(BinaryTail(e));
        NoJumpsAppend(lc + rc, BinaryTail(e));
      }
  }

  lemma {:induction false} TermNoJumps(t: Term, chain: seq<Scope>)
    ensures NoJumps(TermCode(t, chain).code)
    decreases t
  {
    match t
    case Ident(id) =>
      if Lookup(chain, id.lexeme).Some? {
        var push := PushSlot(Lookup(chain, id.lexeme).value.rbpOffset);
        assert push[..4][0] == push[0];
        NoJumpLines(TermCode(t, chain).code);
      }
    case IntLit(lit) => NoJumpLines(IntLitCode(lit));
    case Neg(inner) =>
      TermNoJumps(inner, chain);
      if TermCode(inner, chain).undeclared.None? {
        NoJumpLines(NegTail(t));
        NoJumpsAppend(TermCode(inner, chain).code, NegTail(t));
      }
    case Bracketed(exp) => ExpNoJumps(exp, chain);
  }
}
