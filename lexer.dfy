/** The character lexer of src/lexer.rs: a cursor over the characters of
    the input that produces one token per call of `next`. Character classes
    are their ASCII versions. The spec function `NextToken` gives the token
    and the new cursor for an input and a cursor; the class `Lexer` is
    proved to compute it. */
module CharLexer {
  import opened Common
  import opened Strings

  // ---------------------------------------------------------------------
  // Character classes (ASCII)

  /** `char::is_ascii_whitespace`: space, tab, line feed, form feed and
      carriage return. */
  predicate IsAsciiWhitespace(c: char) {
    c == ' ' || c == '\t' || c == '\n' || c == '\U{000C}' || c == '\r'
  }

  predicate IsAlphabetic(c: char) {
    ('a' <= c <= 'z') || ('A' <= c <= 'Z')
  }

  predicate IsAlphanumeric(c: char) {
    IsAlphabetic(c) || IsDigit(c)
  }

  /** A character of an identifier or keyword. */
  predicate IsWordChar(c: char) {
    IsAlphanumeric(c) || c == '_'
  }

  /** A character inside a string literal: neither a line feed nor a quote. */
  predicate InString(c: char) {
    c != '\n' && c != '"'
  }

  /** The character predicates the lexer passes to `capture_while`. */
  datatype CharClass = Whitespace | StringChar | Digit | WordChar

  predicate Holds(p: CharClass, c: char) {
    match p
    case Whitespace => IsAsciiWhitespace(c)
    case StringChar => InString(c)
    case Digit => IsDigit(c)
    case WordChar => IsWordChar(c)
  }

  predicate AllDigits(s: string) {
    forall k :: 0 <= k < |s| ==> IsDigit(s[k])
  }

  // ---------------------------------------------------------------------
  // Tokens

  datatype KeywordType = Fun | Return | Let

  datatype OpType =
    | Add | Sub | Mul | Div | Mod
    | LessThan | GreaterThan | LessThanEqualTo | GreaterThanEqualTo | EqualTo | NotEqualTo
    | Assign | AddAssign | SubAssign | MulAssign | DivAssign | ModAssign
    | Comma | OpenCurlyBrace | CloseCurlyBrace | OpenParen | CloseParen
    | And | Or | Not
    | BitwiseAnd | BitwiseOr | BitwiseNot

  datatype Token =
    | Ident(name: string)
    | Keyword(kind: KeywordType)
    | Literal(text: string)
    | Op(op: OpType)
    | Invalid(text: string)

  function KeywordName(k: KeywordType): string {
    match k
    case Fun => "fun"
    case Return => "return"
    case Let => "let"
  }

  /** `KeywordType::from_str`: exactly the three keyword spellings are
      recognised. */
  function FromStr(s: string): (r: Option<KeywordType>)
    ensures r.Some? ==> KeywordName(r.value) == s
    ensures forall k :: s == KeywordName(k) ==> r == Some(k)
  {
    if s == "fun" then Some(Fun)
    else if s == "return" then Some(Return)
    else if s == "let" then Some(Let)
    else None
  }

  /** How an operator is written. */
  function OpText(op: OpType): string {
    match op
    case And => "&&"
    case Or => "||"
    case EqualTo => "=="
    case NotEqualTo => "!="
    case LessThanEqualTo => "<="
    case GreaterThanEqualTo => ">="
    case AddAssign => "+="
    case SubAssign => "-="
    case DivAssign => "/="
    case MulAssign => "*="
    case ModAssign => "%="
    case BitwiseAnd => "&"
    case BitwiseOr => "|"
    case BitwiseNot => "~"
    case Not => "!"
    case LessThan => "<"
    case GreaterThan => ">"
    case Add => "+"
    case Sub => "-"
    case Div => "/"
    case Mul => "*"
    case Mod => "%"
    case Assign => "="
    case OpenCurlyBrace => "{"
    case CloseCurlyBrace => "}"
    case OpenParen => "("
    case CloseParen => ")"
    case Comma => ","
  }

  type OpTable = seq<(string, OpType)>

  const TwoCharOperators: OpTable := [
    ("&&", And), ("||", Or), ("==", EqualTo), ("!=", NotEqualTo), ("<=", LessThanEqualTo),
    (">=", GreaterThanEqualTo), ("+=", AddAssign), ("-=", SubAssign), ("/=", DivAssign),
    ("*=", MulAssign), ("%=", ModAssign)
  ]

  const OneCharOperators: OpTable := [
    ("&", BitwiseAnd), ("|", BitwiseOr), ("~", BitwiseNot), ("!", Not), ("<", LessThan),
    (">", GreaterThan), ("+", Add), ("-", Sub), ("/", Div), ("*", Mul), ("%", Mod),
    ("=", Assign), ("{", OpenCurlyBrace), ("}", CloseCurlyBrace), ("(", OpenParen),
    (")", CloseParen), (",", Comma)
  ]

  /** `OPERATOR_MAPPING`, in its order: the eleven two-character operators,
      then the seventeen one-character ones. */
  const OperatorMapping: OpTable := TwoCharOperators + OneCharOperators

  /** A table `capture_operator` can rely on: every entry spells its
      operator and is not empty, and entries never get longer further
      down. */
  ghost predicate WellFormedTable(t: OpTable) {
    (forall k :: 0 <= k < |t| ==> |t[k].0| >= 1 && OpText(t[k].1) == t[k].0)
    && (forall i, j :: 0 <= i <= j < |t| ==> |t[j].0| <= |t[i].0|)
  }

  lemma TwoCharShape()
    ensures forall e :: e in TwoCharOperators ==> |e.0| == 2 && OpText(e.1) == e.0
  {
    forall k | 0 <= k < |TwoCharOperators|
      ensures |TwoCharOperators[k].0| == 2 && OpText(TwoCharOperators[k].1) == TwoCharOperators[k].0
    {
    }
  }

  lemma OneCharShape()
    ensures forall e :: e in OneCharOperators ==> |e.0| == 1 && OpText(e.1) == e.0
  {
    forall k | 0 <= k < 8
      ensures |OneCharOperators[k].0| == 1 && OpText(OneCharOperators[k].1) == OneCharOperators[k].0
    {
    }
    forall k | 8 <= k < |OneCharOperators|
      ensures |OneCharOperators[k].0| == 1 && OpText(OneCharOperators[k].1) == OneCharOperators[k].0
    {
    }
  }

  /** Two tables of fixed entry lengths, the longer first, join into a
      well-formed table. */
  lemma JoinWellFormed(a: OpTable, b: OpTable, la: nat, lb: nat)
    requires 1 <= lb <= la
    requires forall e :: e in a ==> |e.0| == la && OpText(e.1) == e.0
    requires forall e :: e in b ==> |e.0| == lb && OpText(e.1) == e.0
    ensures WellFormedTable(a + b)
  {
    var t := a + b;
    forall k | 0 <= k < |t| ensures |t[k].0| == (if k < |a| then la else lb) && OpText(t[k].1) == t[k].0 {
      if k < |a| {
        assert t[k] == a[k] && a[k] in a;
      } else {
        assert t[k] == b[k - |a|] && b[k - |a|] in b;
      }
    }
  }

  lemma MappingWellFormed()
    ensures |OperatorMapping| == 28 && WellFormedTable(OperatorMapping)
  {
    TwoCharShape();
    OneCharShape();
    JoinWellFormed(TwoCharOperators, OneCharOperators, 2, 1);
  }

  /** Every operator has an entry in the table. */
  lemma MappingCovers(op: OpType)
    ensures (OpText(op), op) in OperatorMapping
  {
    assert (OpText(op), op) in TwoCharOperators || (OpText(op), op) in OneCharOperators;
  }

  // ---------------------------------------------------------------------
  // Scanning, as functions of the input and the cursor

  /** The longest prefix of `s` whose characters all satisfy `p`. */
  function TakeWhile(s: seq<char>, p: CharClass): (r: seq<char>)
    ensures |r| <= |s|
    ensures forall k :: 0 <= k < |r| ==> Holds(p, r[k])
    ensures |r| == |s| || !Holds(p, s[|r|])
  {
    if s == [] || !Holds(p, s[0]) then [] else [s[0]] + TakeWhile(s[1..], p)
  }

  /** The index of the first entry of `t`, from `from` on, that `rest`
      starts with. */
  function FirstMatch(rest: seq<char>, t: OpTable, from: nat): (r: Option<nat>)
    requires from <= |t|
    ensures r.Some? ==> from <= r.value < |t| && StartsWith(rest, t[r.value].0)
    decreases |t| - from
  {
    if from == |t| then None
    else if StartsWith(rest, t[from].0) then Some(from)
    else FirstMatch(rest, t, from + 1)
  }

  /** `FirstMatch` finds the first entry that matches, and none when no
      entry does. */
  lemma {:induction false} FirstMatchIsFirst(rest: seq<char>, t: OpTable, from: nat)
    requires from <= |t|
    ensures var r := FirstMatch(rest, t, from);
            (r.Some? ==> forall k :: from <= k < r.value ==> !StartsWith(rest, t[k].0))
            && (r.None? ==> forall k :: from <= k < |t| ==> !StartsWith(rest, t[k].0))
    decreases |t| - from
  {
    if from < |t| && !StartsWith(rest, t[from].0) {
      FirstMatchIsFirst(rest, t, from + 1);
    }
  }

  /** The longest operator wins: in a well-formed table no entry that the
      input starts with is longer than the first one that it starts with. */
  lemma LongestOperator(rest: seq<char>, t: OpTable, j: nat)
    requires WellFormedTable(t)
    requires FirstMatch(rest, t, 0).Some? && j < |t| && StartsWith(rest, t[j].0)
    ensures |t[j].0| <= |t[FirstMatch(rest, t, 0).value].0|
  {
    FirstMatchIsFirst(rest, t, 0);
  }

  /** `==` is one `EqualTo`, not two `Assign`s. */
  lemma DoubleEquals(after: seq<char>)
    ensures FirstMatch("==" + after, OperatorMapping, 0) == Some(2) && OperatorMapping[2] == ("==", EqualTo)
  {
    var s := "==" + after;
    var t := OperatorMapping;
    assert t[0] == ("&&", And) && t[1] == ("||", Or) && t[2] == ("==", EqualTo);
    assert s[..2] == "==";
    assert s[0] == '=';
    assert !StartsWith(s, t[0].0) && !StartsWith(s, t[1].0) && StartsWith(s, t[2].0);
    assert FirstMatch(s, t, 2) == Some(2);
    assert FirstMatch(s, t, 1) == FirstMatch(s, t, 2);
  }

  /** What one call of `next` gives: the token, if any, and the cursor
      after it. */
  datatype Scan = Scan(token: Option<Token>, next: nat)

  /** Where the cursor stands after `skip_whitespace`. */
  function SkipFrom(c: seq<char>, i: nat): (j: nat)
    requires i <= |c|
    ensures i <= j <= |c|
    ensures forall k :: i <= k < j ==> IsAsciiWhitespace(c[k])
    ensures j == |c| || !IsAsciiWhitespace(c[j])
  {
    var w := TakeWhile(c[i..], Whitespace);
    TakeWhileSlice(c, i, Whitespace);
    assert forall k :: i <= k < i + |w| ==> c[k] == w[k - i];
    i + |w|
  }

  /** A `"`: the characters up to a line feed, a quote or the end; a
      closing quote makes a `Literal` of both quotes and what lies between
      them, anything else an `Invalid` of what was read. */
  function StringToken(c: seq<char>, j: nat): (r: Scan)
    requires j < |c| && c[j] == '"'
    ensures r.token.Some? && j < r.next <= |c|
    ensures (r.token.value.Literal? || r.token.value.Invalid?)
  {
    var body := TakeWhile(c[j + 1..], StringChar);
    var k := j + 1 + |body|;
    if k < |c| && c[k] == '"' then Scan(Some(Literal("\"" + body + "\"")), k + 1)
    else Scan(Some(Invalid("\"" + body)), k)
  }

  /** A digit: a run of digits, then, after a `.`, a second run. */
  function NumberToken(c: seq<char>, j: nat): (r: Scan)
    requires j < |c| && IsDigit(c[j])
    ensures r.token.Some? && j < r.next <= |c|
    ensures r.token.value.Literal?
  {
    var digits := TakeWhile(c[j..], Digit);
    var k := j + |digits|;
    if k < |c| && c[k] == '.' then
      var frac := TakeWhile(c[k + 1..], Digit);
      Scan(Some(Literal(digits + "." + frac)), k + 1 + |frac|)
    else Scan(Some(Literal(digits)), k)
  }

  /** A letter or `_`: a run of word characters, a keyword when it spells
      one and an identifier otherwise. */
  function WordToken(c: seq<char>, j: nat): (r: Scan)
    requires j < |c| && (IsAlphabetic(c[j]) || c[j] == '_')
    ensures r.token.Some? && j < r.next <= |c|
    ensures (r.token.value.Keyword? || r.token.value.Ident?)
  {
    var word := TakeWhile(c[j..], WordChar);
    var k := j + |word|;
    match FromStr(word)
    case Some(kw) => Scan(Some(Keyword(kw)), k)
    case None => Scan(Some(Ident(word)), k)
  }

  /** Anything else: the first operator of the table the input starts
      with, or else that one character as `Invalid`. */
  function OperatorToken(c: seq<char>, j: nat): (r: Scan)
    requires j < |c|
    ensures r.token.Some? && j < r.next <= |c|
    ensures (r.token.value.Op? || r.token.value.Invalid?)
  {
    MappingWellFormed();
    match FirstMatch(c[j..], OperatorMapping, 0)
    case Some(m) => Scan(Some(Op(OperatorMapping[m].1)), j + |OperatorMapping[m].0|)
    case None => Scan(Some(Invalid([c[j]])), j + 1)
  }

  /** `Iterator::next`: skips whitespace, then scans one token. The source
      panics on an alphanumeric character that is neither a letter nor a
      digit; with ASCII classes there is none, so the last case takes every
      other character. */
  function NextToken(c: seq<char>, i: nat): (r: Scan)
    requires i <= |c|
    ensures r.next <= |c|
    ensures r.token.Some? ==> i < r.next
  {
    var j := SkipFrom(c, i);
    if j == |c| then Scan(None, j)
    else if c[j] == '"' then StringToken(c, j)
    else if IsDigit(c[j]) then NumberToken(c, j)
    else if IsAlphabetic(c[j]) || c[j] == '_' then WordToken(c, j)
    else OperatorToken(c, j)
  }

  // ---------------------------------------------------------------------
  // Properties of a scan

  /** `next` has no token exactly when only whitespace is left; the cursor
      then stands at the end. */
  lemma NoTokenIff(c: seq<char>, i: nat)
    requires i <= |c|
    ensures NextToken(c, i).token.None? <==> forall k :: i <= k < |c| ==> IsAsciiWhitespace(c[k])
    ensures NextToken(c, i).token.None? ==> NextToken(c, i).next == |c|
  {
  }

  /** The text a token stands for. */
  function Spelling(t: Token): string {
    match t
    case Ident(name) => name
    case Keyword(kind) => KeywordName(kind)
    case Literal(text) => text
    case Op(op) => OpText(op)
    case Invalid(text) => text
  }

  /** The run is a prefix of the input. */
  lemma {:induction false} TakeWhilePrefix(s: seq<char>, p: CharClass)
    ensures TakeWhile(s, p) == s[..|TakeWhile(s, p)|]
  {
    if s != [] && Holds(p, s[0]) {
      TakeWhilePrefix(s[1..], p);
      assert s == [s[0]] + s[1..];
    }
  }

  lemma TakeWhileSlice(c: seq<char>, j: nat, p: CharClass)
    requires j <= |c|
    ensures j + |TakeWhile(c[j..], p)| <= |c|
    ensures c[j..j + |TakeWhile(c[j..], p)|] == TakeWhile(c[j..], p)
  {
    var w := TakeWhile(c[j..], p);
    TakeWhilePrefix(c[j..], p);
    assert c[j..][..|w|] == c[j..j + |w|];
  }

  lemma TakeWhileStep(s: seq<char>, p: CharClass)
    requires s != [] && Holds(p, s[0])
    ensures TakeWhile(s, p) == [s[0]] + TakeWhile(s[1..], p)
  {
  }

  lemma SliceSplit<T>(c: seq<T>, a: nat, b: nat, d: nat)
    requires a <= b <= d <= |c|
    ensures c[a..d] == c[a..b] + c[b..d]
  {
  }

  lemma SliceAround<T>(c: seq<T>, a: nat, b: nat, d: nat)
    requires a <= b < d <= |c|
    ensures c[a..d] == c[a..b] + [c[b]] + c[b + 1..d]
  {
  }

  /** Starting with one character is having it first. */
  lemma StartsWithOne(s: seq<char>, x: char)
    ensures StartsWith(s, [x]) <==> |s| >= 1 && s[0] == x
  {
    if |s| >= 1 {
      assert s[..1] == [s[0]];
    }
  }

  lemma SliceOne<T>(c: seq<T>, a: nat)
    requires a < |c|
    ensures c[a..a + 1] == [c[a]]
  {
  }

  /** Every token is spelled exactly as the input between the end of the
      skipped whitespace and the new cursor. */
  lemma SpellingIsInput(c: seq<char>, i: nat)
    requires i <= |c|
    ensures var r := NextToken(c, i);
            r.token.Some? ==> Spelling(r.token.value) == c[SkipFrom(c, i)..r.next]
  {
    var j := SkipFrom(c, i);
    var r := NextToken(c, i);
    if j < |c| {
      if c[j] == '"' {
        assert r == StringToken(c, j);
        StringSpelling(c, j);
      } else if IsDigit(c[j]) {
        assert r == NumberToken(c, j);
        NumberSpelling(c, j);
      } else if IsAlphabetic(c[j]) || c[j] == '_' {
        assert r == WordToken(c, j);
        WordShape(c, j);
      } else {
        assert r == OperatorToken(c, j);
        OperatorShape(c, j);
        SliceOne(c, j);
      }
    }
  }

  lemma StringSpelling(c: seq<char>, j: nat)
    requires j < |c| && c[j] == '"'
    ensures StringToken(c, j).token.value.text == c[j..StringToken(c, j).next]
  {
    var body := TakeWhile(c[j + 1..], StringChar);
    var k := j + 1 + |body|;
    TakeWhileSlice(c, j + 1, StringChar);
    SliceSplit(c, j, j + 1, k);
    SliceOne(c, j);
    if k < |c| && c[k] == '"' {
      SliceAround(c, j, k, k + 1);
      assert c[k + 1..k + 1] == [];
    }
  }

  lemma NumberSpelling(c: seq<char>, j: nat)
    requires j < |c| && IsDigit(c[j])
    ensures NumberToken(c, j).token.value.text == c[j..NumberToken(c, j).next]
  {
    var r := NumberToken(c, j);
    var digits := TakeWhile(c[j..], Digit);
    var k := j + |digits|;
    if k < |c| && c[k] == '.' {
      var frac := TakeWhile(c[k + 1..], Digit);
      assert r.token.value.text == digits + "." + frac && r.next == k + 1 + |frac|;
      RunsSpelling(c, j, k, digits, frac);
    } else {
      assert r.token.value.text == digits && r.next == k;
      TakeWhileSlice(c, j, Digit);
    }
  }

  /** The run of digits, the point and the run after it are the input
      they span. */
  lemma RunsSpelling(c: seq<char>, j: nat, k: nat, digits: string, frac: string)
    requires j <= |c| && digits == TakeWhile(c[j..], Digit) && k == j + |digits|
    requires k < |c| && c[k] == '.' && frac == TakeWhile(c[k + 1..], Digit)
    ensures k + 1 + |frac| <= |c| && c[j..k + 1 + |frac|] == digits + "." + frac
  {
    TakeWhileSlice(c, j, Digit);
    TakeWhileSlice(c, k + 1, Digit);
    FractionSpelling(c, j, k, digits, frac);
  }

  /** The digits, the point and the fraction are the input they span. */
  lemma FractionSpelling(c: seq<char>, j: nat, k: nat, digits: string, frac: string)
    requires j <= k < |c| && c[k] == '.' && k + 1 + |frac| <= |c|
    requires c[j..k] == digits && c[k + 1..k + 1 + |frac|] == frac
    ensures c[j..k + 1 + |frac|] == digits + "." + frac
  {
    SliceAround(c, j, k, k + 1 + |frac|);
  }

  /** A number literal is a run of digits, or two runs joined by one `.`,
      and the cursor stops at the first character that extends neither. */
  lemma NumberShape(c: seq<char>, j: nat)
    requires j < |c| && IsDigit(c[j])
    ensures var r := NumberToken(c, j);
            r.token.value.Literal? && (r.next == |c| || !IsDigit(c[r.next]))
            && var s := r.token.value.text;
            |s| > 0 && IsDigit(s[0])
            && (AllDigits(s) || exists p :: 0 < p < |s| && s[p] == '.' && AllDigits(s[..p]) && AllDigits(s[p + 1..]))
  {
    var digits := TakeWhile(c[j..], Digit);
    var k := j + |digits|;
    if k < |c| && c[k] == '.' {
      var frac := TakeWhile(c[k + 1..], Digit);
      var s := digits + "." + frac;
      var p := |digits|;
      assert s[..p] == digits && s[p + 1..] == frac && s[p] == '.';
    }
  }

  /** A quote starts a `Literal` exactly when a closing quote comes before
      any line feed; the literal is quoted and holds neither. Otherwise
      the `Invalid` token ends at a line feed or at the end of the input. */
  lemma StringShape(c: seq<char>, j: nat)
    requires j < |c| && c[j] == '"'
    ensures var r := StringToken(c, j);
            var t := r.token.value;
            (t.Literal? || t.Invalid?)
            && |t.text| >= 1 && t.text[0] == '"'
            && (t.Literal? ==> |t.text| >= 2 && t.text[|t.text| - 1] == '"'
                               && forall k :: 0 < k < |t.text| - 1 ==> InString(t.text[k]))
            && (t.Invalid? ==> (forall k :: 0 < k < |t.text| ==> InString(t.text[k]))
                               && (r.next == |c| || c[r.next] == '\n'))
  {
    var body := TakeWhile(c[j + 1..], StringChar);
    var k := j + 1 + |body|;
    if k < |c| && c[k] == '"' {
      var s := "\"" + body + "\"";
      assert forall m :: 0 < m < |s| - 1 ==> s[m] == body[m - 1];
    } else {
      var s := "\"" + body;
      assert forall m :: 0 < m < |s| ==> s[m] == body[m - 1];
      if k < |c| {
        assert c[k..][0] == c[k];
        assert c[k] == c[j + 1..][|body|];
      }
    }
  }

  /** A word is a maximal run of word characters; it is a keyword when it
      spells one (`FromStr` recognises exactly the keyword spellings) and an
      identifier otherwise. */
  lemma WordShape(c: seq<char>, j: nat)
    requires j < |c| && (IsAlphabetic(c[j]) || c[j] == '_')
    ensures var r := WordToken(c, j);
            (r.next == |c| || !IsWordChar(c[r.next]))
            && (forall k :: j <= k < r.next ==> IsWordChar(c[k]))
            && r.token == Some(match FromStr(c[j..r.next])
                               case Some(kw) => Keyword(kw)
                               case None => Ident(c[j..r.next]))
  {
    var word := TakeWhile(c[j..], WordChar);
    TakeWhileSlice(c, j, WordChar);
    assert forall k :: j <= k < j + |word| ==> c[k] == word[k - j];
  }

  /** Punctuation that starts an operator becomes the longest such
      operator; punctuation that starts none becomes that one character as
      `Invalid`. */
  lemma OperatorShape(c: seq<char>, j: nat)
    requires j < |c|
    ensures var r := OperatorToken(c, j);
            var t := OperatorMapping;
            (r.token.value.Op? ==> OpText(r.token.value.op) == c[j..r.next]
                                   && forall k :: 0 <= k < |t| && StartsWith(c[j..], t[k].0) ==> |t[k].0| <= r.next - j)
            && (r.token.value.Invalid? ==> (r.token.value.text == [c[j]] && r.next == j + 1
                                           && forall k :: 0 <= k < |t| ==> !StartsWith(c[j..], t[k].0)))
  {
    var t := OperatorMapping;
    MappingWellFormed();
    MatchShape(c[j..], t);
    var m := FirstMatch(c[j..], t, 0);
    if m.Some? {
      assert c[j..][..|t[m.value].0|] == c[j..j + |t[m.value].0|];
    }
  }

  /** In a well-formed table the first match is a longest match, and no
      match means no entry matches. */
  lemma MatchShape(rest: seq<char>, t: OpTable)
    requires WellFormedTable(t)
    ensures var r := FirstMatch(rest, t, 0);
            (r.Some? ==> forall k :: 0 <= k < |t| && StartsWith(rest, t[k].0) ==> |t[k].0| <= |t[r.value].0|)
            && (r.None? ==> forall k :: 0 <= k < |t| ==> !StartsWith(rest, t[k].0))
  {
    FirstMatchIsFirst(rest, t, 0);
  }

  // ---------------------------------------------------------------------
  // `capture` as written

  /** What the loop of `capture` at src/lexer.rs:159-170 does, as written:
      its bound check lets `next_index + i == len` through, and the index
      that follows is then out of bounds, which panics. */
  datatype CaptureOutcome = Captured | NotCaptured | IndexOutOfBounds

  function CaptureAsWritten(c: seq<char>, next: nat, str: string): CaptureOutcome {
    CaptureAsWrittenFrom(c, next, str, 0)
  }

  function CaptureAsWrittenFrom(c: seq<char>, next: nat, str: string, i: nat): CaptureOutcome
    decreases |str| - i
  {
    if i >= |str| then Captured
    else if i + next > |c| then NotCaptured
    else if next + i == |c| then IndexOutOfBounds
    else if c[next + i] != str[i] then NotCaptured
    else CaptureAsWrittenFrom(c, next, str, i + 1)
  }

  /** The loop as written panics exactly when the rest of the input is a
      proper prefix of the string sought; in every other case it agrees
      with the corrected check. */
  lemma {:induction false} CaptureAsWrittenFromIff(c: seq<char>, next: nat, str: string, i: nat)
    requires next <= |c| && i <= |str| && next + i <= |c| && c[next..next + i] == str[..i]
    ensures CaptureAsWrittenFrom(c, next, str, i) == IndexOutOfBounds
            <==> |c| - next < |str| && c[next..] == str[..|c| - next]
    ensures CaptureAsWrittenFrom(c, next, str, i) != IndexOutOfBounds
            ==> (CaptureAsWrittenFrom(c, next, str, i) == Captured <==> StartsWith(c[next..], str))
    decreases |str| - i
  {
    if i < |str| && next + i < |c| {
      if c[next + i] == str[i] {
        assert c[next..next + i + 1] == c[next..next + i] + [c[next + i]];
        assert str[..i + 1] == str[..i] + [str[i]];
        CaptureAsWrittenFromIff(c, next, str, i + 1);
      } else {
        assert c[next..][i] != str[i];
      }
    } else if i < |str| {
      assert c[next..] == c[next..next + i];
    } else {
      assert str[..i] == str;
      assert c[next..][..|str|] == c[next..next + i];
    }
  }

  lemma CaptureAsWrittenIff(c: seq<char>, next: nat, str: string)
    requires next <= |c|
    ensures CaptureAsWritten(c, next, str) == IndexOutOfBounds
            <==> |c| - next < |str| && c[next..] == str[..|c| - next]
    ensures CaptureAsWritten(c, next, str) != IndexOutOfBounds
            ==> (CaptureAsWritten(c, next, str) == Captured <==> StartsWith(c[next..], str))
  {
    CaptureAsWrittenFromIff(c, next, str, 0);
  }

  /** An input ending in `=` makes `capture("==")` index past the end. */
  lemma CaptureOverrunsOnEquals()
    ensures CaptureAsWritten("=", 0, "==") == IndexOutOfBounds
  {
  }

  /** A number at the very end of the input makes `capture(".")` index
      past the end. */
  lemma CaptureOverrunsAfterNumber()
    ensures CaptureAsWritten("5", 1, ".") == IndexOutOfBounds
  {
  }

  /** What `capture_operator` does with `capture` as written: it panics at
      the first entry whose capture overruns, unless an earlier entry
      matched. */
  datatype OperatorOutcome = OperatorPanics | OperatorMatched(index: nat) | OperatorUnmatched

  function CaptureOperatorAsWritten(c: seq<char>, j: nat, t: OpTable, from: nat): (r: OperatorOutcome)
    requires from <= |t|
    ensures r.OperatorMatched? ==> from <= r.index < |t| && CaptureAsWritten(c, j, t[r.index].0) == Captured
    decreases |t| - from
  {
    if from == |t| then OperatorUnmatched
    else match CaptureAsWritten(c, j, t[from].0)
      case IndexOutOfBounds => OperatorPanics
      case Captured => OperatorMatched(from)
      case NotCaptured => CaptureOperatorAsWritten(c, j, t, from + 1)
  }

  /** What one call of `next` does with `capture` as written: it panics, or
      it gives a token and a cursor. */
  datatype NextOutcome = NextPanics | NextScans(scan: Scan)

  function NextAsWritten(c: seq<char>, i: nat): NextOutcome
    requires i <= |c|
  {
    var j := SkipFrom(c, i);
    if j == |c| then NextScans(Scan(None, j))
    else if c[j] == '"' then
      var body := TakeWhile(c[j + 1..], StringChar);
      var k := j + 1 + |body|;
      TakeWhileSlice(c, j + 1, StringChar);
      match CaptureAsWritten(c, k, "\"")
      case IndexOutOfBounds => NextPanics
      case Captured => NextScans(Scan(Some(Literal("\"" + body + "\"")), k + 1))
      case NotCaptured => NextScans(Scan(Some(Invalid("\"" + body)), k))
    else if IsDigit(c[j]) then
      var digits := TakeWhile(c[j..], Digit);
      var k := j + |digits|;
      TakeWhileSlice(c, j, Digit);
      CaptureAsWrittenIff(c, k, ".");
      match CaptureAsWritten(c, k, ".")
      case IndexOutOfBounds => NextPanics
      case Captured =>
        var frac := TakeWhile(c[k + 1..], Digit);
        NextScans(Scan(Some(Literal(digits + "." + frac)), k + 1 + |frac|))
      case NotCaptured => NextScans(Scan(Some(Literal(digits)), k))
    else if IsAlphabetic(c[j]) || c[j] == '_' then NextScans(WordToken(c, j))
    else match CaptureOperatorAsWritten(c, j, OperatorMapping, 0)
      case OperatorPanics => NextPanics
      case OperatorMatched(m) => NextScans(Scan(Some(Op(OperatorMapping[m].1)), j + |OperatorMapping[m].0|))
      case OperatorUnmatched => NextScans(Scan(Some(Invalid([c[j]])), j + 1))
  }

  /** The characters that begin a two-character operator of the table. */
  predicate StartsTwoCharOperator(ch: char) {
    ch in "&|=!<>+-/*%"
  }

  /** When `capture_operator` as written does not panic, it finds what
      `FirstMatch` finds. */
  lemma {:induction false} CaptureOperatorAgrees(c: seq<char>, j: nat, t: OpTable, from: nat)
    requires j <= |c| && from <= |t|
    ensures var r := CaptureOperatorAsWritten(c, j, t, from);
            r != OperatorPanics ==>
              (r == OperatorUnmatched <==> FirstMatch(c[j..], t, from).None?)
              && (r.OperatorMatched? ==> FirstMatch(c[j..], t, from) == Some(r.index))
    decreases |t| - from
  {
    if from < |t| {
      CaptureAsWrittenIff(c, j, t[from].0);
      CaptureOperatorAgrees(c, j, t, from + 1);
    }
  }

  /** No entry from `from` on overruns: `capture_operator` does not panic. */
  lemma {:induction false} OperatorNoOverrun(c: seq<char>, j: nat, t: OpTable, from: nat)
    requires from <= |t|
    requires forall k :: from <= k < |t| ==> CaptureAsWritten(c, j, t[k].0) != IndexOutOfBounds
    ensures CaptureOperatorAsWritten(c, j, t, from) != OperatorPanics
    decreases |t| - from
  {
    if from < |t| {
      OperatorNoOverrun(c, j, t, from + 1);
    }
  }

  /** Some entry below `hi` overruns and none before it matches:
      `capture_operator` panics. */
  lemma {:induction false} OperatorOverrun(c: seq<char>, j: nat, t: OpTable, from: nat, hi: nat, m: nat)
    requires from <= m < hi <= |t|
    requires CaptureAsWritten(c, j, t[m].0) == IndexOutOfBounds
    requires forall k :: from <= k < hi ==> CaptureAsWritten(c, j, t[k].0) != Captured
    ensures CaptureOperatorAsWritten(c, j, t, from) == OperatorPanics
    decreases m - from
  {
    if from < m && CaptureAsWritten(c, j, t[from].0) == NotCaptured {
      OperatorOverrun(c, j, t, from + 1, hi, m);
    }
  }

  /** The first characters of the two-character operators, in order. */
  lemma TwoCharFirsts()
    ensures |TwoCharOperators| == 11 && |"&|=!<>+-/*%"| == 11
    ensures forall k :: 0 <= k < 11 ==> TwoCharOperators[k].0[0] == "&|=!<>+-/*%"[k]
  {
    forall k | 0 <= k < 11
      ensures TwoCharOperators[k].0[0] == "&|=!<>+-/*%"[k]
    {
    }
  }

  /** The entry lengths and first characters of the operator table. */
  lemma MappingEntries()
    ensures |OperatorMapping| == 28 && |"&|=!<>+-/*%"| == 11
    ensures forall k :: 0 <= k < 11 ==> |OperatorMapping[k].0| == 2 && OperatorMapping[k].0[0] == "&|=!<>+-/*%"[k]
    ensures forall k :: 11 <= k < 28 ==> |OperatorMapping[k].0| == 1
  {
    MappingWellFormed();
    TwoCharShape();
    OneCharShape();
    TwoCharFirsts();
    forall k | 0 <= k < 11
      ensures |OperatorMapping[k].0| == 2 && OperatorMapping[k].0[0] == "&|=!<>+-/*%"[k]
    {
      assert OperatorMapping[k] == TwoCharOperators[k] && TwoCharOperators[k] in TwoCharOperators;
    }
    forall k | 11 <= k < 28
      ensures |OperatorMapping[k].0| == 1
    {
      assert OperatorMapping[k] == OneCharOperators[k - 11] && OneCharOperators[k - 11] in OneCharOperators;
    }
  }

  /** `capture_operator` as written panics exactly on a last character that
      begins a two-character operator. */
  lemma OperatorPanicsIff(c: seq<char>, j: nat)
    requires j < |c|
    ensures CaptureOperatorAsWritten(c, j, OperatorMapping, 0) == OperatorPanics
            <==> j == |c| - 1 && StartsTwoCharOperator(c[j])
  {
    var t := OperatorMapping;
    MappingEntries();
    forall k | 0 <= k < |t|
      ensures CaptureAsWritten(c, j, t[k].0) == IndexOutOfBounds
              <==> j == |c| - 1 && |t[k].0| == 2 && t[k].0[0] == c[j]
      ensures k < 11 && j == |c| - 1 ==> CaptureAsWritten(c, j, t[k].0) != Captured
    {
      CaptureAsWrittenIff(c, j, t[k].0);
      if j == |c| - 1 {
        assert c[j..] == [c[j]];
      }
    }
    if j == |c| - 1 && StartsTwoCharOperator(c[j]) {
      var m :| 0 <= m < 11 && "&|=!<>+-/*%"[m] == c[j];
      OperatorOverrun(c, j, t, 0, 11, m);
    } else {
      OperatorNoOverrun(c, j, t, 0);
    }
  }

  /** `next` with `capture` as written panics exactly on three kinds of
      input: a digit run that reaches the end, a string left open at the
      end, and a last character that begins a two-character operator. On
      every other input it does what `NextToken` does. */
  lemma NextAsWrittenIff(c: seq<char>, i: nat)
    requires i <= |c|
    ensures var j := SkipFrom(c, i);
            NextAsWritten(c, i) == NextPanics <==>
              j < |c| &&
              ((c[j] == '"' && j + 1 + |TakeWhile(c[j + 1..], StringChar)| == |c|)
               || (IsDigit(c[j]) && j + |TakeWhile(c[j..], Digit)| == |c|)
               || (j == |c| - 1 && StartsTwoCharOperator(c[j])))
    ensures NextAsWritten(c, i).NextScans? ==> NextAsWritten(c, i).scan == NextToken(c, i)
  {
    var j := SkipFrom(c, i);
    if j < |c| {
      if c[j] == '"' {
        var k := j + 1 + |TakeWhile(c[j + 1..], StringChar)|;
        TakeWhileSlice(c, j + 1, StringChar);
        CaptureAsWrittenIff(c, k, "\"");
        StartsWithOne(c[k..], '"');
      } else if IsDigit(c[j]) {
        var k := j + |TakeWhile(c[j..], Digit)|;
        TakeWhileSlice(c, j, Digit);
        CaptureAsWrittenIff(c, k, ".");
        StartsWithOne(c[k..], '.');
      } else if !(IsAlphabetic(c[j]) || c[j] == '_') {
        assert !StartsTwoCharOperator(c[j]) || !IsDigit(c[j]);
        OperatorPanicsIff(c, j);
        MappingWellFormed();
        CaptureOperatorAgrees(c, j, OperatorMapping, 0);
      }
    }
  }

  /** A number at the end of the input: `5`. */
  lemma NextPanicsAfterNumber()
    ensures NextAsWritten("5", 0) == NextPanics
  {
    NextAsWrittenIff("5", 0);
  }

  /** A string left open at the end of the input: `"ab`. */
  lemma NextPanicsInOpenString()
    ensures NextAsWritten("\"ab", 0) == NextPanics
  {
    NextAsWrittenIff("\"ab", 0);
  }

  /** A last character that begins a two-character operator: `=`. */
  lemma NextPanicsOnLastEquals()
    ensures NextAsWritten("=", 0) == NextPanics
  {
    NextAsWrittenIff("=", 0);
  }

  /** A number followed by another character is scanned as usual. */
  lemma NextScansNumberBeforeSemicolon()
    ensures NextAsWritten("5;", 0) == NextScans(NextToken("5;", 0))
  {
    NextAsWrittenIff("5;", 0);
  }

  // ---------------------------------------------------------------------
  // The lexer

  class Lexer {
    const contents: seq<char>
    var nextIndex: nat

    ghost predicate Valid()
      reads this
    {
      nextIndex <= |contents|
    }

    function Rest(): seq<char>
      reads this
      requires Valid()
    {
      contents[nextIndex..]
    }

    /** `Lexer::new` */
    constructor New(text: string)
      ensures Valid() && contents == text && nextIndex == 0
    {
      contents := text;
      nextIndex := 0;
    }

    /** `peek_ch`: the character at the cursor, `None` at or past the end. */
    function PeekCh(): (r: Option<char>)
      reads this
      ensures r.None? <==> nextIndex >= |contents|
      ensures r.Some? ==> r.value == contents[nextIndex]
    {
      if nextIndex < |contents| then Some(contents[nextIndex]) else None
    }

    /** `next_ch`: the character at the cursor, moving past it. */
    method NextCh() returns (r: Option<char>)
      modifies this
      ensures r == old(PeekCh())
      ensures nextIndex == if r.Some? then old(nextIndex) + 1 else old(nextIndex)
    {
      r := PeekCh();
      if r.Some? {
        nextIndex := nextIndex + 1;
      }
    }

    /** `capture_while`: the maximal run at the cursor whose characters
        satisfy `p`, moving past it. */
    method CaptureWhile(p: CharClass) returns (capture: string)
      requires Valid()
      modifies this
      ensures Valid()
      ensures capture == TakeWhile(old(Rest()), p)
      ensures nextIndex == old(nextIndex) + |capture|
    {
      ghost var start := nextIndex;
      capture := "";
      while true
        invariant start <= nextIndex <= |contents|
        invariant |capture| == nextIndex - start
        invariant TakeWhile(contents[start..], p) == capture + TakeWhile(contents[nextIndex..], p)
        decreases |contents| - nextIndex
      {
        var ch := PeekCh();
        if ch.None? {
          break;
        }
        if Holds(p, ch.value) {
          ghost var n := nextIndex;
          assert contents[n..][1..] == contents[n + 1..];
          TakeWhileStep(contents[n..], p);
          AppendAssoc(capture, [ch.value], TakeWhile(contents[n + 1..], p));
          capture := capture + [ch.value];
          var moved := NextCh();
        } else {
          break;
        }
      }
      assert capture + [] == capture;
    }

    /** `skip_whitespace` */
    method SkipWhitespace()
      requires Valid()
      modifies this
      ensures Valid()
      ensures nextIndex == SkipFrom(contents, old(nextIndex))
    {
      var skipped := CaptureWhile(Whitespace);
    }

    /** `capture`, with the bound check corrected to `>=`: whether the
        input at the cursor starts with `str`, moving past it if so. */
    method Capture(str: string) returns (b: bool)
      requires Valid()
      modifies this
      ensures Valid()
      ensures b == StartsWith(old(Rest()), str)
      ensures nextIndex == if b then old(nextIndex) + |str| else old(nextIndex)
    {
      for i := 0 to |str|
        invariant nextIndex + i <= |contents|
        invariant contents[nextIndex..nextIndex + i] == str[..i]
      {
        if i + nextIndex >= |contents| {
          return false;
        }
        if contents[nextIndex + i] != str[i] {
          assert Rest()[i] != str[i];
          return false;
        }
        assert contents[nextIndex..nextIndex + i + 1] == contents[nextIndex..nextIndex + i] + [contents[nextIndex + i]];
        assert str[..i + 1] == str[..i] + [str[i]];
      }
      assert str[..|str|] == str;
      assert Rest()[..|str|] == contents[nextIndex..nextIndex + |str|];
      nextIndex := nextIndex + |str|;
      return true;
    }

    /** `capture_invalid_from_next`: the character at the cursor as an
        `Invalid` token. */
    method CaptureInvalidFromNext() returns (r: Option<Token>)
      modifies this
      ensures r == if old(PeekCh()).Some? then Some(Invalid([old(PeekCh()).value])) else None
      ensures nextIndex == if r.Some? then old(nextIndex) + 1 else old(nextIndex)
    {
      var ch := NextCh();
      if ch.None? {
        return None;
      }
      r := Some(Invalid([ch.value]));
    }

    /** `capture_operator`: the first entry of the table the input at the
        cursor starts with, moving past it. */
    method CaptureOperator() returns (r: Option<OpType>)
      requires Valid()
      modifies this
      ensures Valid()
      ensures match FirstMatch(old(Rest()), OperatorMapping, 0)
              case None => r.None? && nextIndex == old(nextIndex)
              case Some(k) => r == Some(OperatorMapping[k].1) && nextIndex == old(nextIndex) + |OperatorMapping[k].0|
    {
      ghost var rest0 := Rest();
      for k := 0 to |OperatorMapping|
        invariant nextIndex == old(nextIndex)
        invariant FirstMatch(rest0, OperatorMapping, 0) == FirstMatch(rest0, OperatorMapping, k)
      {
        var b := Capture(OperatorMapping[k].0);
        if b {
          return Some(OperatorMapping[k].1);
        }
      }
      return None;
    }

    /** `Iterator::next` */
    method Next() returns (r: Option<Token>)
      requires Valid()
      modifies this
      ensures Valid()
      ensures NextToken(contents, old(nextIndex)) == Scan(r, nextIndex)
    {
      SkipWhitespace();
      var ch := PeekCh();
      if ch.None? {
        return None;
      }
      var c := ch.value;
      if c == '"' {
        r := ScanString();
      } else if IsDigit(c) {
        r := ScanNumber();
      } else if IsAlphabetic(c) || c == '_' {
        r := ScanWord();
      } else {
        r := ScanOperator();
      }
    }

    /** The string arm of `next`. */
    method ScanString() returns (r: Option<Token>)
      requires Valid() && nextIndex < |contents| && contents[nextIndex] == '"'
      modifies this
      ensures Valid()
      ensures StringToken(contents, old(nextIndex)) == Scan(r, nextIndex)
    {
      var moved := NextCh();
      var capture := "\"";
      var body := CaptureWhile(StringChar);
      capture := capture + body;
      StartsWithOne(Rest(), '"');
      var closed := Capture("\"");
      if closed {
        capture := capture + "\"";
        r := Some(Literal(capture));
      } else {
        r := Some(Invalid(capture));
      }
    }

    /** The number arm of `next`. */
    method ScanNumber() returns (r: Option<Token>)
      requires Valid() && nextIndex < |contents| && IsDigit(contents[nextIndex])
      modifies this
      ensures Valid()
      ensures NumberToken(contents, old(nextIndex)) == Scan(r, nextIndex)
    {
      var literal := CaptureWhile(Digit);
      StartsWithOne(Rest(), '.');
      var dot := Capture(".");
      if dot {
        literal := literal + ".";
        var frac := CaptureWhile(Digit);
        literal := literal + frac;
      }
      r := Some(Literal(literal));
    }

    /** The word arm of `next`. */
    method ScanWord() returns (r: Option<Token>)
      requires Valid() && nextIndex < |contents| && (IsAlphabetic(contents[nextIndex]) || contents[nextIndex] == '_')
      modifies this
      ensures Valid()
      ensures WordToken(contents, old(nextIndex)) == Scan(r, nextIndex)
    {
      var ident := CaptureWhile(WordChar);
      var kw := FromStr(ident);
      if kw.Some? {
        r := Some(Keyword(kw.value));
      } else {
        r := Some(Ident(ident));
      }
    }

    /** The operator arm of `next`, with the one-character `Invalid` fallback. */
    method ScanOperator() returns (r: Option<Token>)
      requires Valid() && nextIndex < |contents|
      modifies this
      ensures Valid()
      ensures OperatorToken(contents, old(nextIndex)) == Scan(r, nextIndex)
    {
      var op := CaptureOperator();
      if op.Some? {
        r := Some(Op(op.value));
      } else {
        r := CaptureInvalidFromNext();
      }
    }
  }
}
