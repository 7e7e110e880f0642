/** The assembly text the emitters build. Every emitter appends to a single
    `String` through three (in one snapshot four) helpers, each of which
    writes exactly one line; the text is therefore the concatenation of the
    rendered lines, and properties of the output are stated on the lines. */
module AsmText {
  import opened Common
  import opened Strings

  datatype Line =
    | Instr(text: string)    // `stmt(s)`: an indented instruction (or a blank line when s is empty)
    | Label(name: string)    // `label(s)`
    | Comment(text: string)  // `comment(s)`
    | Banner(text: string)   // `comment_emp(s)`, only in src/codegen.rs

  function Render(l: Line): string {
    match l
    case Instr(s) => "    " + s + "\n"
    case Label(s) => s + ":\n"
    case Comment(s) => "    ; " + s + "\n"
    case Banner(s) => "    ; ################# " + s + " #################\n"
  }

  /** The text of a line sequence: its rendered lines, concatenated. */
  function RenderAll(lines: seq<Line>): string {
    Concat(Rendered(lines))
  }

  function Rendered(lines: seq<Line>): (r: seq<string>)
    ensures |r| == |lines| && forall i :: 0 <= i < |lines| ==> r[i] == Render(lines[i])
  {
    if lines == [] then [] else Rendered(lines[..|lines| - 1]) + [Render(lines[|lines| - 1])]
  }

  function Concat(ss: seq<string>): string {
    if ss == [] then "" else Concat(ss[..|ss| - 1]) + ss[|ss| - 1]
  }

  lemma {:induction false} ConcatAppend(a: seq<string>, b: seq<string>)
    ensures Concat(a + b) == Concat(a) + Concat(b)
  {
    if b == [] {
      assert a + b == a;
    } else {
      var b' := b[..|b| - 1];
      assert (a + b)[..|a + b| - 1] == a + b';
      ConcatAppend(a, b');
    }
  }

  /** Appending lines appends their text: the text of a line sequence never
      changes once written. */
  lemma RenderAllAppend(a: seq<Line>, b: seq<Line>)
    ensures RenderAll(a + b) == RenderAll(a) + RenderAll(b)
  {
    assert Rendered(a + b) == Rendered(a) + Rendered(b);
    ConcatAppend(Rendered(a), Rendered(b));
  }

  lemma RenderAllOne(l: Line)
    ensures RenderAll([l]) == Render(l)
  {
    assert [l][..0] == [];
    assert Rendered([l]) == [] + [Render(l)];
    assert [Render(l)][..0] == [];
    assert Concat([Render(l)]) == "" + Render(l);
  }

  /** Appending one line appends its rendering: `stmt`, `label` and
      `comment` each push exactly that text. */
  lemma AppendLine(lines: seq<Line>, l: Line)
    ensures RenderAll(lines + [l]) == RenderAll(lines) + Render(l)
  {
    RenderAllAppend(lines, [l]);
    RenderAllOne(l);
  }

  lemma RenderAllTwo(a: Line, b: Line)
    ensures RenderAll([a, b]) == Render(a) + Render(b)
  {
    assert [a, b] == [a] + [b];
    AppendLine([a], b);
    RenderAllOne(a);
  }

  /** The text of code starts with the text of its first two lines. */
  lemma StartsWithFirstTwo(code: seq<Line>)
    requires |code| >= 2
    ensures StartsWith(RenderAll(code), Render(code[0]) + Render(code[1]))
  {
    assert code == [code[0], code[1]] + code[2..];
    RenderAllAppend([code[0], code[1]], code[2..]);
    RenderAllTwo(code[0], code[1]);
    Framed(Render(code[0]) + Render(code[1]), RenderAll(code[2..]), "");
  }

  /** ... and ends with the text of its last two. */
  lemma EndsWithLastTwo(code: seq<Line>)
    requires |code| >= 2
    ensures EndsWith(RenderAll(code), Render(code[|code| - 2]) + Render(code[|code| - 1]))
  {
    var n := |code|;
    assert code == code[..n - 2] + [code[n - 2], code[n - 1]];
    RenderAllAppend(code[..n - 2], [code[n - 2], code[n - 1]]);
    RenderAllTwo(code[n - 2], code[n - 1]);
    Framed("", RenderAll(code[..n - 2]), Render(code[n - 2]) + Render(code[n - 1]));
  }

  predicate IsPush(l: Line) {
    l.Instr? && StartsWith(l.text, "push")
  }

  predicate IsPop(l: Line) {
    l.Instr? && StartsWith(l.text, "pop")
  }

  /** Number of `push` instructions minus number of `pop` instructions: the
      net change in the depth of the evaluation stack. */
  function Net(lines: seq<Line>): int {
    if lines == [] then 0
    else Net(lines[..|lines| - 1]) + (if IsPush(lines[|lines| - 1]) then 1 else 0)
                                   - (if IsPop(lines[|lines| - 1]) then 1 else 0)
  }

  lemma {:induction false} NetAppend(a: seq<Line>, b: seq<Line>)
    ensures Net(a + b) == Net(a) + Net(b)
  {
    if b == [] {
      assert a + b == a;
    } else {
      var b' := b[..|b| - 1];
      assert (a + b)[..|a + b| - 1] == a + b';
      assert (a + b)[|a + b| - 1] == b[|b| - 1];
      NetAppend(a, b');
    }
  }

  /** A conditional or unconditional jump, `jz <label>` or `jmp <label>`. */
  predicate IsJump(l: Line) {
    l.Instr? && (StartsWith(l.text, "jz ") || StartsWith(l.text, "jmp "))
  }

  function JumpTarget(l: Line): string
    requires IsJump(l)
  {
    if StartsWith(l.text, "jz ") then l.text[3..] else l.text[4..]
  }

  /** Every jump names a label that the code defines further down. */
  ghost predicate JumpsForward(lines: seq<Line>) {
    forall i :: 0 <= i < |lines| && IsJump(lines[i]) ==> Label(JumpTarget(lines[i])) in lines[i + 1..]
  }

  ghost predicate NoJumps(lines: seq<Line>) {
    forall i :: 0 <= i < |lines| ==> !IsJump(lines[i])
  }

  lemma ForwardAppend(a: seq<Line>, b: seq<Line>)
    requires JumpsForward(a) && JumpsForward(b)
    ensures JumpsForward(a + b)
  {
    var c := a + b;
    forall i | 0 <= i < |c| && IsJump(c[i]) ensures Label(JumpTarget(c[i])) in c[i + 1..] {
      if i < |a| {
        assert c[i] == a[i];
        var k :| 0 <= k < |a[i + 1..]| && a[i + 1..][k] == Label(JumpTarget(a[i]));
        assert c[i + 1..][k] == a[i + 1..][k];
      } else {
        var j := i - |a|;
        assert c[i] == b[j];
        var k :| 0 <= k < |b[j + 1..]| && b[j + 1..][k] == Label(JumpTarget(b[j]));
        assert c[i + 1..][k] == b[j + 1..][k];
      }
    }
  }

  /** A jump whose label comes later, between code whose jumps go forward. */
  lemma JumpAhead(a: seq<Line>, j: Line, b: seq<Line>)
    requires JumpsForward(a) && IsJump(j) && JumpsForward(b) && Label(JumpTarget(j)) in b
    ensures JumpsForward(a + [j] + b)
  {
    var c := [j] + b;
    forall i | 0 <= i < |c| && IsJump(c[i]) ensures Label(JumpTarget(c[i])) in c[i + 1..] {
      if i == 0 {
        assert c[1..] == b;
      } else {
        assert c[i] == b[i - 1];
        assert c[i + 1..] == b[i..];
      }
    }
    ForwardAppend(a, c);
    assert a + [j] + b == a + c;
  }

  lemma NoJumpsForward(lines: seq<Line>)
    requires NoJumps(lines)
    ensures JumpsForward(lines)
  {
  }

  lemma NoJumpsAppend(a: seq<Line>, b: seq<Line>)
    requires NoJumps(a) && NoJumps(b)
    ensures NoJumps(a + b)
  {
    forall i | 0 <= i < |a + b| ensures !IsJump((a + b)[i]) {
      if i < |a| {
        assert (a + b)[i] == a[i];
      } else {
        assert (a + b)[i] == b[i - |a|];
      }
    }
  }

  /** Names of the labels defined in `lines`, in order. */
  function LabelsOf(lines: seq<Line>): seq<string> {
    if lines == [] then []
    else LabelsOf(lines[..|lines| - 1]) + (if lines[|lines| - 1].Label? then [lines[|lines| - 1].name] else [])
  }

  lemma {:induction false} LabelsOfAppend(a: seq<Line>, b: seq<Line>)
    ensures LabelsOf(a + b) == LabelsOf(a) + LabelsOf(b)
  {
    if b == [] {
      assert a + b == a;
    } else {
      var b' := b[..|b| - 1];
      assert (a + b)[..|a + b| - 1] == a + b';
      assert (a + b)[|a + b| - 1] == b[|b| - 1];
      LabelsOfAppend(a, b');
    }
  }

  /** Number of lines equal to `l`. */
  function CountOf(lines: seq<Line>, l: Line): nat {
    if lines == [] then 0
    else CountOf(lines[..|lines| - 1], l) + (if lines[|lines| - 1] == l then 1 else 0)
  }

  lemma {:induction false} CountOfAppend(a: seq<Line>, b: seq<Line>, l: Line)
    ensures CountOf(a + b, l) == CountOf(a, l) + CountOf(b, l)
  {
    if b == [] {
      assert a + b == a;
    } else {
      var b' := b[..|b| - 1];
      assert (a + b)[..|a + b| - 1] == a + b';
      assert (a + b)[|a + b| - 1] == b[|b| - 1];
      CountOfAppend(a, b', l);
    }
  }
}
