/** Label pairing in the output of the block-structured generator
    (src/codegen/codegen.rs): every label is a decorated name taken from the
    label decorator, each (base, index) pair is taken once, so no label is
    defined twice; and every `jz`/`jmp` of a successful generation jumps
    forward to a label that the same code defines. */
module BlockLabels {
  import opened Strings
  import opened AsmText
  import opened ScopeEnv
  import opened LabelDecorator
  import opened Ast
  import opened StackExpr
  import opened BlockCodegen

  /** The label names of (base, index) pairs. */
  function Names(defined: seq<(string, nat)>): seq<string> {
    if defined == [] then [] else Names(defined[..|defined| - 1]) + [Decorated(defined[|defined| - 1].0, defined[|defined| - 1].1)]
  }

  lemma {:induction false} NamesAppend(a: seq<(string, nat)>, b: seq<(string, nat)>)
    ensures Names(a + b) == Names(a) + Names(b)
  {
    if b == [] {
      assert a + b == a;
    } else {
      var b' := b[..|b| - 1];
      assert (a + b)[..|a + b| - 1] == a + b';
      NamesAppend(a, b');
    }
  }

  lemma {:induction false} NamesAt(d: seq<(string, nat)>, i: nat)
    requires i < |d|
    ensures |Names(d)| == |d| && Names(d)[i] == Decorated(d[i].0, d[i].1)
  {
    NamesLength(d);
    if i < |d| - 1 {
      NamesAt(d[..|d| - 1], i);
    }
  }

  lemma {:induction false} NamesLength(d: seq<(string, nat)>)
    ensures |Names(d)| == |d|
  {
    if d != [] {
      NamesLength(d[..|d| - 1]);
    }
  }

  /** No counter goes down from `lo` to `hi`. */
  ghost predicate Grows(lo: map<string, nat>, hi: map<string, nat>) {
    forall b :: IndexOf(lo, b) <= IndexOf(hi, b)
  }

  /** Every pair was handed out between the counters `lo` and `hi`. */
  ghost predicate Within(d: seq<(string, nat)>, lo: map<string, nat>, hi: map<string, nat>) {
    forall i :: 0 <= i < |d| ==> IndexOf(lo, d[i].0) <= d[i].1 < IndexOf(hi, d[i].0)
  }

  ghost predicate Apart(d1: seq<(string, nat)>, d2: seq<(string, nat)>) {
    forall i, j :: 0 <= i < |d1| && 0 <= j < |d2| ==> d1[i] != d2[j]
  }

  ghost predicate Distinct<T>(s: seq<T>) {
    forall i, j :: 0 <= i < j < |s| ==> s[i] != s[j]
  }

  /** The label bookkeeping of a generation step that moved the decorator's
      counters from `lo` to `hi`: the labels `code` defines are exactly the
      names of `defined`, all of them pairs handed out meanwhile, none twice. */
  ghost predicate Kept(code: seq<Line>, defined: seq<(string, nat)>, lo: map<string, nat>, hi: map<string, nat>) {
    Grows(lo, hi) && Within(defined, lo, hi) && Distinct(defined) && LabelsOf(code) == Names(defined)
  }

  /** Pairs handed out over disjoint counter ranges differ. */
  lemma ApartByRange(d1: seq<(string, nat)>, lo1: map<string, nat>, hi1: map<string, nat>,
                     d2: seq<(string, nat)>, lo2: map<string, nat>, hi2: map<string, nat>)
    requires Within(d1, lo1, hi1) && Within(d2, lo2, hi2)
    requires Grows(hi1, lo2) || Grows(hi2, lo1)
    ensures Apart(d1, d2)
  {
    forall i, j | 0 <= i < |d1| && 0 <= j < |d2| ensures d1[i] != d2[j] {
      var b := d1[i].0;
      assert IndexOf(lo1, b) <= d1[i].1 < IndexOf(hi1, b);
      assert IndexOf(lo2, d2[j].0) <= d2[j].1 < IndexOf(hi2, d2[j].0);
    }
  }

  lemma DistinctConcat(d1: seq<(string, nat)>, d2: seq<(string, nat)>)
    requires Distinct(d1) && Distinct(d2) && Apart(d1, d2)
    ensures Distinct(d1 + d2)
  {
    var d := d1 + d2;
    forall i, j | 0 <= i < j < |d| ensures d[i] != d[j] {
      if j < |d1| {
        assert d[i] == d1[i] && d[j] == d1[j];
      } else if i >= |d1| {
        assert d[i] == d2[i - |d1|] && d[j] == d2[j - |d1|];
      } else {
        assert d[i] == d1[i] && d[j] == d2[j - |d1|];
      }
    }
  }

  lemma ApartLeft(d1: seq<(string, nat)>, d2: seq<(string, nat)>, d3: seq<(string, nat)>)
    requires Apart(d1, d3) && Apart(d2, d3)
    ensures Apart(d1 + d2, d3)
  {
    var d := d1 + d2;
    forall i, j | 0 <= i < |d| && 0 <= j < |d3| ensures d[i] != d3[j] {
      if i < |d1| {
        assert d[i] == d1[i];
      } else {
        assert d[i] == d2[i - |d1|];
      }
    }
  }

  /** Lines that define no label keep the counters where they are. */
  lemma Quiet(code: seq<Line>, lo: map<string, nat>)
    requires LabelsOf(code) == []
    ensures Kept(code, [], lo, lo)
  {
  }

  /** Two steps in a row. */
  lemma KeptSeq(c1: seq<Line>, d1: seq<(string, nat)>, lo: map<string, nat>, mid: map<string, nat>,
                c2: seq<Line>, d2: seq<(string, nat)>, hi: map<string, nat>)
    requires Kept(c1, d1, lo, mid) && Kept(c2, d2, mid, hi)
    ensures Kept(c1 + c2, d1 + d2, lo, hi)
  {
    ApartByRange(d1, lo, mid, d2, mid, hi);
    DistinctConcat(d1, d2);
    LabelsOfAppend(c1, c2);
    NamesAppend(d1, d2);
    assert Within(d1 + d2, lo, hi) by {
      forall i | 0 <= i < |d1 + d2| ensures IndexOf(lo, (d1 + d2)[i].0) <= (d1 + d2)[i].1 < IndexOf(hi, (d1 + d2)[i].0) {
        if i < |d1| {
          assert (d1 + d2)[i] == d1[i];
        } else {
          assert (d1 + d2)[i] == d2[i - |d1|];
        }
      }
    }
  }

  /** Label-free lines in front, after counters moved from `lo` to `mid`. */
  lemma KeptPre(pre: seq<Line>, lo: map<string, nat>, mid: map<string, nat>,
                c: seq<Line>, d: seq<(string, nat)>, hi: map<string, nat>)
    requires LabelsOf(pre) == [] && Grows(lo, mid) && Kept(c, d, mid, hi)
    ensures Kept(pre + c, d, lo, hi)
  {
    LabelsOfAppend(pre, c);
  }

  /** Label-free lines behind. */
  lemma KeptPost(c: seq<Line>, d: seq<(string, nat)>, lo: map<string, nat>, hi: map<string, nat>, post: seq<Line>)
    requires Kept(c, d, lo, hi) && LabelsOf(post) == []
    ensures Kept(c + post, d, lo, hi)
  {
    LabelsOfAppend(c, post);
  }

  /** Lines that define the label of one more pair, handed out between `lo`
      and `hi` and not among `d`. */
  lemma KeptLabel(c: seq<Line>, d: seq<(string, nat)>, lo: map<string, nat>, hi: map<string, nat>,
                  extra: seq<Line>, p: (string, nat))
    requires Kept(c, d, lo, hi) && LabelsOf(extra) == [Decorated(p.0, p.1)]
    requires IndexOf(lo, p.0) <= p.1 < IndexOf(hi, p.0) && Apart(d, [p])
    ensures Kept(c + extra, d + [p], lo, hi)
  {
    DistinctConcat(d, [p]);
    NamesOne(p);
    LabelsOfAppend(c, extra);
    NamesAppend(d, [p]);
    WithinSnoc(d, lo, hi, p);
  }

  lemma NamesOne(p: (string, nat))
    ensures Names([p]) == [Decorated(p.0, p.1)]
  {
    assert [p][..0] == [];
  }

  lemma WithinSnoc(d: seq<(string, nat)>, lo: map<string, nat>, hi: map<string, nat>, p: (string, nat))
    requires Within(d, lo, hi) && IndexOf(lo, p.0) <= p.1 < IndexOf(hi, p.0)
    ensures Within(d + [p], lo, hi)
  {
    forall i | 0 <= i < |d + [p]| ensures IndexOf(lo, (d + [p])[i].0) <= (d + [p])[i].1 < IndexOf(hi, (d + [p])[i].0) {
      if i < |d| {
        assert (d + [p])[i] == d[i];
      }
    }
  }

  /** A pair below the counters `mid` is not among pairs handed out from `mid` on. */
  lemma ApartBelow(d: seq<(string, nat)>, mid: map<string, nat>, hi: map<string, nat>, p: (string, nat))
    requires Within(d, mid, hi) && p.1 < IndexOf(mid, p.0)
    ensures Apart(d, [p])
  {
  }

  lemma OneLabelLine(name: string)
    ensures LabelsOf([Label(name)]) == [name]
  {
    assert [Label(name)][..0] == [];
  }

  lemma JumpIfZeroNoLabels(cond: RExp, target: string)
    ensures LabelsOf(JumpIfZero(cond, target)) == []
  {
    NoLabelLines(JumpIfZero(cond, target));
  }

  lemma ElseJumpLabels(elseStart: string, elseEnd: string)
    ensures LabelsOf(ElseJump(elseStart, elseEnd)) == [elseStart]
  {
    var c := ElseJump(elseStart, elseEnd);
    assert c[..1] == [Instr("jmp " + elseEnd)];
    NoLabelLines(c[..1]);
  }

  lemma ElseCloseLabels(elseEnd: string)
    ensures LabelsOf(ElseClose(elseEnd)) == [elseEnd]
  {
    var c := ElseClose(elseEnd);
    assert c[..1] == [Comment("}")];
    NoLabelLines(c[..1]);
  }

  /** Code from an expression followed by fixed label-free lines. */
  lemma ExpThenQuiet(pre: seq<Line>, e: RExp, chain: seq<Scope>, post: seq<Line>)
    requires forall i :: 0 <= i < |pre| ==> !pre[i].Label?
    requires forall i :: 0 <= i < |post| ==> !post[i].Label?
    ensures LabelsOf(pre + ExpCode(e, chain).code) == []
    ensures LabelsOf(pre + ExpCode(e, chain).code + post) == []
  {
    ExpDefinesNoLabels(e, chain);
    NoLabelLines(pre);
    NoLabelLines(post);
    LabelsOfAppend(pre, ExpCode(e, chain).code);
    LabelsOfAppend(pre + ExpCode(e, chain).code, post);
  }

  // ---------------------------------------------------------------------
  // The generation steps keep the bookkeeping

  lemma {:induction false} StmtLabels(s: Stmt, head: Scope, parents: seq<Scope>, labels: map<string, nat>)
    requires WellFormed(s)
    ensures var g := GenStmtSpec(s, head, parents, labels); Kept(g.code, g.defined, labels, g.labels)
    decreases Size(s), 4
  {
    match s
    case Block(body) =>
      BlockLabelsKept(body, [head] + parents, labels);
    case If(_, _, elseBranch) =>
      if elseBranch.None? {
        IfLabels(s, head, parents, labels);
      } else {
        IfElseLabels(s, head, parents, labels);
      }
    case _ =>
      SimpleStmtQuiet(s, head, parents, labels);
  }

  /** A statement other than a block or an `if` defines no label and leaves
      the counters alone. */
  lemma SimpleStmtQuiet(s: Stmt, head: Scope, parents: seq<Scope>, labels: map<string, nat>)
    requires !s.Block? && !s.If?
    ensures var g := GenStmtSpec(s, head, parents, labels);
            LabelsOf(g.code) == [] && g.labels == labels && g.defined == []
  {
    var chain := [head] + parents;
    match s
    case Declare(id) =>
      NoLabelLines(DeclareLines(NewSymbol(head, id.lexeme, false)));
    case Initialize(id, e) => InitializeQuiet(id, e, head, parents, labels);
    case Assign(target, e) => AssignQuiet(target, e, head, parents, labels);
    case ExprStmt(e) =>
      ExpThenQuiet([Comment(ShowExp(e))], e, chain, []);
    case Exit(e) => ExitQuiet(e, head, parents, labels);
  }

  lemma InitializeQuiet(id: Identifier, e: RExp, head: Scope, parents: seq<Scope>, labels: map<string, nat>)
    ensures var g := InitializeSpec(id, e, head, parents, labels);
            LabelsOf(g.code) == [] && g.labels == labels && g.defined == []
  {
    ExpThenQuiet(LetHead(id, e), e, [head] + parents, LetTail(NewSymbol(head, id.lexeme, true), e));
  }

  lemma AssignQuiet(target: Identifier, e: RExp, head: Scope, parents: seq<Scope>, labels: map<string, nat>)
    ensures var g := AssignSpec(target, e, head, parents, labels);
            LabelsOf(g.code) == [] && g.labels == labels && g.defined == []
  {
    var chain := [head] + parents;
    if Lookup(chain, target.lexeme).Some? {
      var sym := Lookup(chain, target.lexeme).value;
      ExpThenQuiet(AssignHead(sym, e), e, chain, AssignTail(sym, e));
    }
  }

  lemma ExitQuiet(e: RExp, head: Scope, parents: seq<Scope>, labels: map<string, nat>)
    ensures var g := ExitSpec(e, head, parents, labels);
            LabelsOf(g.code) == [] && g.labels == labels && g.defined == []
  {
    var ex := ExpCode(e, [head] + parents);
    ExpDefinesNoLabels(e, [head] + parents);
    NoLabelLines(ExitTail(e));
    LabelsOfAppend(ex.code, ExitTail(e));
  }

  lemma {:induction false} IfLabels(s: Stmt, head: Scope, parents: seq<Scope>, labels: map<string, nat>)
    requires s.If? && s.elseBranch.None? && WellFormed(s)
    ensures var g := IfSpec(s, head, parents, labels); Kept(g.code, g.defined, labels, g.labels)
    decreases Size(s), 3
  {
    var chain := [head] + parents;
    var k := IndexOf(labels, "end_if");
    var l1 := Bumped(labels, "end_if");
    var ex := ExpCode(s.cond, chain);
    ExpDefinesNoLabels(s.cond, chain);
    if ex.undeclared.None? {
      var endIf := Decorated("end_if", k);
      var pre := ex.code + JumpIfZero(s.cond, endIf);
      JumpIfZeroNoLabels(s.cond, endIf);
      LabelsOfAppend(ex.code, JumpIfZero(s.cond, endIf));
      var b := GenBlockSpec(s.thenBody, chain, l1);
      BlockLabelsKept(s.thenBody, chain, l1);
      KeptPre(pre, labels, l1, b.code, b.defined, b.labels);
      if b.error.None? {
        ApartBelow(b.defined, l1, b.labels, ("end_if", k));
        OneLabelLine(endIf);
        KeptLabel(pre + b.code, b.defined, labels, b.labels, [Label(endIf)], ("end_if", k));
      }
    }
  }

  lemma {:induction false} IfElseLabels(s: Stmt, head: Scope, parents: seq<Scope>, labels: map<string, nat>)
    requires s.If? && s.elseBranch.Some? && WellFormed(s)
    ensures var g := IfElseSpec(s, head, parents, labels); Kept(g.code, g.defined, labels, g.labels)
    decreases Size(s), 3
  {
    var chain := [head] + parents;
    var k1 := IndexOf(labels, "else_start");
    var k2 := IndexOf(Bumped(labels, "else_start"), "else_end");
    var l2 := Bumped(Bumped(labels, "else_start"), "else_end");
    var ex := ExpCode(s.cond, chain);
    ExpDefinesNoLabels(s.cond, chain);
    if ex.undeclared.None? {
      var t := ThenElseSpec(s, head, parents, l2, k1, k2);
      ThenElseLabels(s, head, parents, labels, k1, k2);
      LabelsOfAppend(ex.code, t.code);
    }
  }

  lemma {:induction false} ThenElseLabels(s: Stmt, head: Scope, parents: seq<Scope>, lo: map<string, nat>, k1: nat, k2: nat)
    requires s.If? && s.elseBranch.Some? && WellFormed(s)
    requires k1 == IndexOf(lo, "else_start") && k2 == IndexOf(Bumped(lo, "else_start"), "else_end")
    ensures var g := ThenElseSpec(s, head, parents, Bumped(Bumped(lo, "else_start"), "else_end"), k1, k2);
            Kept(g.code, g.defined, lo, g.labels)
    decreases Size(s), 2
  {
    var chain := [head] + parents;
    var l2 := Bumped(Bumped(lo, "else_start"), "else_end");
    var elseStart := Decorated("else_start", k1);
    ThenElseUnfold(s, head, parents, l2, k1, k2);
    var b := GenBlockSpec(s.thenBody, chain, l2);
    BlockLabelsKept(s.thenBody, chain, l2);
    JumpIfZeroNoLabels(s.cond, elseStart);
    var pre := JumpIfZero(s.cond, elseStart) + b.code;
    KeptPre(JumpIfZero(s.cond, elseStart), lo, l2, b.code, b.defined, b.labels);
    if b.error.None? {
      AfterThenLabels(s, head, parents, lo, k1, k2, pre, b.defined, b.labels);
    }
  }

  /** The jump over the `else`, its label, the `else` part and the end
      label, after a `then` block that went through. */
  lemma AfterThenLabels(s: Stmt, head: Scope, parents: seq<Scope>, lo: map<string, nat>, k1: nat, k2: nat,
                        pre: seq<Line>, bd: seq<(string, nat)>, lb: map<string, nat>)
    requires s.If? && s.elseBranch.Some? && WellFormed(s)
    requires k1 == IndexOf(lo, "else_start") && k2 == IndexOf(Bumped(lo, "else_start"), "else_end")
    requires var l2 := Bumped(Bumped(lo, "else_start"), "else_end");
             Kept(pre, bd, lo, lb) && Within(bd, l2, lb) && Grows(l2, lb)
    ensures var e := ElseSpec(s, head, parents, lb);
            var elseStart, elseEnd := Decorated("else_start", k1), Decorated("else_end", k2);
            var mid := pre + ElseJump(elseStart, elseEnd) + e.code;
            var d1 := bd + [("else_start", k1)];
            Kept(mid, d1 + e.defined, lo, e.labels)
            && Kept(mid + ElseClose(elseEnd), d1 + e.defined + [("else_end", k2)], lo, e.labels)
    decreases Size(s), 1
  {
    var l2 := Bumped(Bumped(lo, "else_start"), "else_end");
    var elseStart, elseEnd := Decorated("else_start", k1), Decorated("else_end", k2);
    var ps := ("else_start", k1);
    ApartBelow(bd, l2, lb, ps);
    ElseJumpLabels(elseStart, elseEnd);
    KeptLabel(pre, bd, lo, lb, ElseJump(elseStart, elseEnd), ps);
    ElseLabels(s, head, parents, lb);
    ElseTailLabels(s, head, parents, pre + ElseJump(elseStart, elseEnd), bd, lo, l2, lb, k2);
  }

  /** The `else` part and the end label, after the `then` block. */
  lemma ElseTailLabels(s: Stmt, head: Scope, parents: seq<Scope>, c: seq<Line>, bd: seq<(string, nat)>,
                       lo: map<string, nat>, l2: map<string, nat>, lb: map<string, nat>, k2: nat)
    requires s.If? && s.elseBranch.Some? && WellFormed(s)
    requires Kept(c, bd + [("else_start", IndexOf(lo, "else_start"))], lo, lb) && Within(bd, l2, lb) && Grows(l2, lb)
    requires IndexOf(lo, "else_end") <= k2 < IndexOf(l2, "else_end")
    requires var e := ElseSpec(s, head, parents, lb); Kept(e.code, e.defined, lb, e.labels)
    ensures var e := ElseSpec(s, head, parents, lb);
            var d1 := bd + [("else_start", IndexOf(lo, "else_start"))];
            Kept(c + e.code, d1 + e.defined, lo, e.labels)
            && Kept(c + e.code + ElseClose(Decorated("else_end", k2)), d1 + e.defined + [("else_end", k2)], lo, e.labels)
  {
    var e := ElseSpec(s, head, parents, lb);
    var ps, pe := ("else_start", IndexOf(lo, "else_start")), ("else_end", k2);
    var d1 := bd + [ps];
    KeptSeq(c, d1, lo, lb, e.code, e.defined, e.labels);
    ApartBelow(bd, l2, lb, pe);
    ApartBelow(e.defined, lb, e.labels, pe);
    ApartLeft(bd, [ps], [pe]);
    ApartLeft(d1, e.defined, [pe]);
    ElseCloseLabels(Decorated("else_end", k2));
    KeptLabel(c + e.code, d1 + e.defined, lo, e.labels, ElseClose(Decorated("else_end", k2)), pe);
  }

  lemma {:induction false} ElseLabels(s: Stmt, head: Scope, parents: seq<Scope>, labels: map<string, nat>)
    requires s.If? && s.elseBranch.Some? && WellFormed(s)
    ensures var g := ElseSpec(s, head, parents, labels); Kept(g.code, g.defined, labels, g.labels)
    decreases Size(s), 0
  {
    var els := s.elseBranch.value;
    assert Size(s) == 1 + SizeAll(s.thenBody) + Size(els);
    if els.Block? {
      assert Size(els) == 1 + SizeAll(els.body);
      assert AllWellFormed(els.body) by { assert WellFormed(els); }
      var eb := GenBlockSpec(els.body, [head] + parents, labels);
      BlockLabelsKept(els.body, [head] + parents, labels);
      NoLabelLines([Comment("else {")]);
      KeptPre([Comment("else {")], labels, labels, eb.code, eb.defined, eb.labels);
    } else {
      var ei := GenStmtSpec(els, head, parents, labels);
      StmtLabels(els, head, parents, labels);
      NoLabelLines([Comment("else if {")]);
      KeptPre([Comment("else if {")], labels, labels, ei.code, ei.defined, ei.labels);
    }
  }

  lemma {:induction false} StmtsLabels(ss: seq<Stmt>, head: Scope, parents: seq<Scope>, labels: map<string, nat>)
    requires AllWellFormed(ss)
    ensures var g := GenStmtsSpec(ss, head, parents, labels); Kept(g.code, g.defined, labels, g.labels)
    decreases SizeAll(ss), 5
  {
    if ss != [] {
      var front := ss[..|ss| - 1];
      assert AllWellFormed(front) by {
        forall i | 0 <= i < |front| ensures WellFormed(front[i]) {
          assert front[i] == ss[i];
        }
      }
      var g := GenStmtsSpec(front, head, parents, labels);
      StmtsLabels(front, head, parents, labels);
      if g.error.None? {
        SizeAllElement(ss, |ss| - 1);
        var g2 := GenStmtSpec(ss[|ss| - 1], g.head, parents, g.labels);
        StmtLabels(ss[|ss| - 1], g.head, parents, g.labels);
        KeptSeq(g.code, g.defined, labels, g.labels, g2.code, g2.defined, g2.labels);
      }
    }
  }

  lemma {:induction false} BlockLabelsKept(body: seq<Stmt>, outer: seq<Scope>, labels: map<string, nat>)
    requires AllWellFormed(body)
    ensures var g := GenBlockSpec(body, outer, labels); Kept(g.code, g.defined, labels, g.labels)
    decreases SizeAll(body), 6
  {
    var inner := GenStmtsSpec(body, EmptyScope(if outer == [] then 0 else outer[0].currentRbpOffset), outer, labels);
    StmtsLabels(body, EmptyScope(if outer == [] then 0 else outer[0].currentRbpOffset), outer, labels);
    NoLabelLines([Comment("{")]);
    KeptPre([Comment("{")], labels, labels, inner.code, inner.defined, inner.labels);
    if inner.error.None? {
      NoLabelLines([Comment("}")]);
      KeptPost([Comment("{")] + inner.code, inner.defined, labels, inner.labels, [Comment("}")]);
    }
  }

  /** Distinct pairs have distinct label names. */
  lemma NamesDistinct(d: seq<(string, nat)>)
    requires Distinct(d)
    ensures Distinct(Names(d))
  {
    NamesLength(d);
    forall i, j | 0 <= i < j < |Names(d)| ensures Names(d)[i] != Names(d)[j] {
      NamesAt(d, i);
      NamesAt(d, j);
      if Names(d)[i] == Names(d)[j] {
        DecoratedInjective(d[i].0, d[i].1, d[j].0, d[j].1);
      }
    }
  }

  /** A decorated name ends in a digit, so it is never `_start`. */
  lemma NotStart(base: string, n: nat)
    ensures Decorated(base, n) != "_start"
  {
    var t := Decorated(base, n);
    var digits := NatToString(n);
    assert t[|t| - 1] == digits[|digits| - 1];
  }

  /** No label of the text of `gen` is defined twice: `_start` once, and
      every decorated label once. */
  lemma ProgramLabelsDistinct(stmts: seq<Stmt>, labels: map<string, nat>)
    requires AllWellFormed(stmts)
    ensures Distinct(LabelsOf(ProgramSpec(stmts, labels).code))
  {
    var d := GenBlockSpec(stmts, [], labels).defined;
    ProgramLabels(stmts, labels);
    BlockLabelsKept(stmts, [], labels);
    NamesDistinct(d);
    StartNotDecorated(d);
    ConsDistinct("_start", Names(d));
  }

  /** The labels of `gen`'s text: `_start`, then the root block's. */
  lemma ProgramLabels(stmts: seq<Stmt>, labels: map<string, nat>)
    requires AllWellFormed(stmts)
    ensures LabelsOf(ProgramSpec(stmts, labels).code) == ["_start"] + LabelsOf(GenBlockSpec(stmts, [], labels).code)
  {
    var b := GenBlockSpec(stmts, [], labels);
    var post := if b.error.Some? then [] else Epilogue;
    assert ProgramSpec(stmts, labels).code == Prologue + b.code + post;
    assert LabelsOf(Prologue) == ["_start"] by {
      assert Prologue[..1] == [Label("_start")];
      OneLabelLine("_start");
    }
    NoLabelLines(post);
    LabelsOfAppend(Prologue, b.code);
    LabelsOfAppend(Prologue + b.code, post);
  }

  lemma StartNotDecorated(d: seq<(string, nat)>)
    ensures forall i :: 0 <= i < |Names(d)| ==> Names(d)[i] != "_start"
  {
    forall i | 0 <= i < |Names(d)| ensures Names(d)[i] != "_start" {
      NamesLength(d);
      NamesAt(d, i);
      NotStart(d[i].0, d[i].1);
    }
  }

  lemma ConsDistinct<T>(x: T, s: seq<T>)
    requires Distinct(s) && forall i :: 0 <= i < |s| ==> s[i] != x
    ensures Distinct([x] + s)
  {
    forall i, j | 0 <= i < j < |[x] + s| ensures ([x] + s)[i] != ([x] + s)[j] {
      assert ([x] + s)[j] == s[j - 1];
      if i > 0 {
        assert ([x] + s)[i] == s[i - 1];
      }
    }
  }
}
