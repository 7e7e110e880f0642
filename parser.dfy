/** The tokens the statement parser of src/parser.rs reads. They come from
    a peek/consume lexer that is not the character lexer of src/lexer.rs;
    only the token types the parser tells apart are named, every other one
    is `Other`. */
module ParserTokens {
  import opened Common

  datatype TokenType =
    | StartOfFile
    | EndOfFile
    | Let
    | Ident(lexeme: string)
    | IntLiteral(lexeme: string)
    | Assign
    | Other(name: string)

  datatype Token = Token(tokentype: TokenType, loc: Location)

  /** `LexingError`: the lexer met a character sequence that is no token. */
  datatype LexingError = IllegalToken(loc: Location, lexeme: string)

  /** What the lexer has at one position of its token stream: a token, or
      the error it reports when asked to move onto that position. */
  datatype Lexed = Tok(token: Token) | Bad(error: LexingError)

  /** A token stream as the parser may see it: its current item is a token
      and it ends with `EndOfFile`. */
  ghost predicate StreamOk(rest: seq<Lexed>) {
    |rest| >= 1 && rest[0].Tok? && rest[|rest| - 1].Tok? && rest[|rest| - 1].token.tokentype.EndOfFile?
  }
}

/** The statement parser of src/parser.rs: a loop over the token stream
    that appends `let x`, `let x = v` and `x = v` statements, where `v` is
    an identifier or an integer literal.

    The token source is the remaining stream, a sequence of `Lexed` items;
    `lexer.peek()` is its first token and `lexer.consume()` drops it. The
    spec functions give, for the remaining stream and the statements so
    far, what each production returns, where it leaves the stream and which
    statements the program then holds; the class `Parser` is proved to do
    exactly that. */
module StatementParser {
  import opened Common
  import A = Ast
  import opened ParserTokens

  type Identifier = A.Identifier

  /** `RExpression` */
  datatype RExp = IntLit(lit: A.IntLiteral) | IdentExp(id: Identifier)

  /** `Statement`; the target of `Assign` is `LExpression::Ident`, its only
      form. */
  datatype Stmt =
    | Declare(id: Identifier)
    | Initialize(id: Identifier, value: RExp)
    | Assign(target: Identifier, value: RExp)

  /** `ParsingError` */
  datatype ParsingError =
    | UnexpectedToken(unexpected: Token, msg: string)
    | IllegalToken(loc: Location, lexeme: string)

  const StartMsg := "Invalid token for starting a statement"
  const RexpMsg := "An rexpression can only be an int literal or an identifier"
  const LexpMsg := "An lexpression can only consist of an identifier."
  const LetMsg := "The `let` keyword can only be followed by an identifier"

  /** `From<LexingError> for ParsingError`: the location and the lexeme
      are carried over unchanged. */
  function FromLexingError(e: LexingError): (r: ParsingError)
    ensures r.IllegalToken? && r.loc == e.loc && r.lexeme == e.lexeme
  {
    ParsingError.IllegalToken(e.loc, e.lexeme)
  }

  /** No two lexing errors become the same parsing error. */
  lemma FromLexingErrorInjective(a: LexingError, b: LexingError)
    requires FromLexingError(a) == FromLexingError(b)
    ensures a == b
  {
  }

  // ---------------------------------------------------------------------
  // The parser, as functions of the remaining stream

  function Peek(rest: seq<Lexed>): Token
    requires StreamOk(rest)
  {
    rest[0].token
  }

  /** `consume`: moves past the current token; fails with the lexer's
      error when the next item is one. */
  function Consume(rest: seq<Lexed>): (r: Result<seq<Lexed>, ParsingError>)
    requires StreamOk(rest) && !Peek(rest).tokentype.EndOfFile?
    ensures r.Ok? ==> StreamOk(r.value) && r.value == rest[1..]
    ensures r.Err? <==> rest[1].Bad?
  {
    if rest[1].Bad? then Err(FromLexingError(rest[1].error)) else Ok(rest[1..])
  }

  /** What a production did: its result, the remaining stream and the
      program's statements afterwards. */
  datatype Step = Step(result: Result<(), ParsingError>, rest: seq<Lexed>, statements: seq<Stmt>)

  /** The right-hand side the current token stands for, if it can be one. */
  function ValueOf(token: Token): Option<RExp> {
    match token.tokentype
    case Ident(x) => Some(IdentExp(A.Identifier(token.loc, x)))
    case IntLiteral(n) => Some(IntLit(A.IntLiteral(token.loc, n)))
    case _ => None
  }

  /** `rexp`: one identifier or integer literal token. */
  function RexpSpec(rest: seq<Lexed>): (r: Result<(RExp, seq<Lexed>), ParsingError>)
    requires StreamOk(rest)
    ensures r.Ok? ==> StreamOk(r.value.1) && r.value.1 == rest[1..] && Some(r.value.0) == ValueOf(Peek(rest))
    ensures ValueOf(Peek(rest)).None? ==> r == Err(UnexpectedToken(Peek(rest), RexpMsg))
  {
    var value := ValueOf(Peek(rest));
    if value.None? then Err(UnexpectedToken(Peek(rest), RexpMsg))
    else
      match Consume(rest)
      case Err(e) => Err(e)
      case Ok(r1) => Ok((value.value, r1))
  }

  /** `lexp`: one identifier token. */
  function LexpSpec(rest: seq<Lexed>): (r: Result<(Identifier, seq<Lexed>), ParsingError>)
    requires StreamOk(rest)
    ensures r.Ok? ==> StreamOk(r.value.1) && r.value.1 == rest[1..]
                      && Peek(rest).tokentype == Ident(r.value.0.lexeme) && r.value.0.loc == Peek(rest).loc
    ensures !Peek(rest).tokentype.Ident? ==> r == Err(UnexpectedToken(Peek(rest), LexpMsg))
  {
    var token := Peek(rest);
    if !token.tokentype.Ident? then Err(UnexpectedToken(token, LexpMsg))
    else
      match Consume(rest)
      case Err(e) => Err(e)
      case Ok(r1) => Ok((A.Identifier(token.loc, token.tokentype.lexeme), r1))
  }

  /** `after` is `before` or `before` and one more statement. */
  predicate AppendsAtMostOne(before: seq<Stmt>, after: seq<Stmt>) {
    after == before || (|after| == |before| + 1 && after[..|before|] == before)
  }

  /** `assign`: `x = v`; when no `=` follows the identifier, the identifier
      is consumed and nothing is appended. */
  function AssignSpec(rest: seq<Lexed>, stmts: seq<Stmt>): (st: Step)
    requires StreamOk(rest)
    ensures st.result.Ok? ==> StreamOk(st.rest) && |st.rest| < |rest|
    ensures AppendsAtMostOne(stmts, st.statements)
    ensures st.statements != stmts ==> st.result.Ok? && st.statements[|stmts|].Assign?
  {
    match LexpSpec(rest)
    case Err(e) => Step(Err(e), rest, stmts)
    case Ok((target, r1)) => AssignTail(r1, target, stmts)
  }

  /** The rest of `assign`, after its target. */
  function AssignTail(r1: seq<Lexed>, target: Identifier, stmts: seq<Stmt>): (st: Step)
    requires StreamOk(r1)
    ensures st.result.Ok? ==> StreamOk(st.rest) && |st.rest| <= |r1|
    ensures AppendsAtMostOne(stmts, st.statements)
    ensures st.statements != stmts ==> st.result.Ok? && st.statements[|stmts|].Assign?
  {
    if !Peek(r1).tokentype.Assign? then Step(Ok(()), r1, stmts)
    else
      match Consume(r1)
      case Err(e) => Step(Err(e), r1, stmts)
      case Ok(r2) =>
        match RexpSpec(r2)
        case Err(e) => Step(Err(e), r2, stmts)
        case Ok((value, r3)) => Step(Ok(()), r3, stmts + [Stmt.Assign(target, value)])
  }

  /** `decl_or_init`, after `let`: `x` alone declares, `x = v` initialises. */
  function DeclOrInitSpec(rest: seq<Lexed>, stmts: seq<Stmt>): (st: Step)
    requires StreamOk(rest)
    ensures st.result.Ok? ==> StreamOk(st.rest) && |st.rest| < |rest|
    ensures AppendsAtMostOne(stmts, st.statements)
  {
    var token := Peek(rest);
    if !token.tokentype.Ident? then Step(Err(UnexpectedToken(token, LetMsg)), rest, stmts)
    else
      match Consume(rest)
      case Err(e) => Step(Err(e), rest, stmts)
      case Ok(r1) => AfterLetIdent(r1, A.Identifier(token.loc, token.tokentype.lexeme), stmts)
  }

  /** `decl_or_init` after `let x`. */
  function AfterLetIdent(r1: seq<Lexed>, id: Identifier, stmts: seq<Stmt>): (st: Step)
    requires StreamOk(r1)
    ensures st.result.Ok? ==> StreamOk(st.rest) && |st.rest| <= |r1|
    ensures AppendsAtMostOne(stmts, st.statements)
  {
    if !Peek(r1).tokentype.Assign? then Step(Ok(()), r1, stmts + [Declare(id)])
    else
      match Consume(r1)
      case Err(e) => Step(Err(e), r1, stmts)
      case Ok(r2) => InitValue(r2, id, stmts)
  }

  /** `decl_or_init` after `let x =`. The initialisation is appended before
      the token after `v` is consumed, so it stays even when that consume
      fails. */
  function InitValue(r2: seq<Lexed>, id: Identifier, stmts: seq<Stmt>): (st: Step)
    requires StreamOk(r2)
    ensures st.result.Ok? ==> StreamOk(st.rest) && |st.rest| < |r2|
    ensures AppendsAtMostOne(stmts, st.statements)
    ensures ValueOf(Peek(r2)).Some? <==> st.statements != stmts
    ensures st.statements != stmts ==> st.statements[|stmts|] == Initialize(id, ValueOf(Peek(r2)).value)
  {
    var value := ValueOf(Peek(r2));
    if value.None? then Step(Err(UnexpectedToken(Peek(r2), RexpMsg)), r2, stmts)
    else
      var stmts' := stmts + [Initialize(id, value.value)];
      match Consume(r2)
      case Err(e) => Step(Err(e), r2, stmts')
      case Ok(r3) => Step(Ok(()), r3, stmts')
  }

  /** One round of the loop of `parse`, at a token other than `EndOfFile`:
      skips `StartOfFile`, sends `let` to `decl_or_init` and an identifier
      to `assign`, and rejects any other token. */
  function RoundSpec(rest: seq<Lexed>, stmts: seq<Stmt>): (st: Step)
    requires StreamOk(rest) && !Peek(rest).tokentype.EndOfFile?
    ensures st.result.Ok? ==> StreamOk(st.rest) && |st.rest| < |rest|
    ensures AppendsAtMostOne(stmts, st.statements)
  {
    var token := Peek(rest);
    match token.tokentype
    case StartOfFile =>
      (match Consume(rest)
       case Err(e) => Step(Err(e), rest, stmts)
       case Ok(r1) => Step(Ok(()), r1, stmts))
    case Let =>
      (match Consume(rest)
       case Err(e) => Step(Err(e), rest, stmts)
       case Ok(r1) => DeclOrInitSpec(r1, stmts))
    case Ident(_) => AssignSpec(rest, stmts)
    case _ => Step(Err(UnexpectedToken(token, StartMsg)), rest, stmts)
  }

  /** How `parse` ends: its result and the program's statements. */
  datatype Outcome = Outcome(result: Result<(), ParsingError>, statements: seq<Stmt>)

  /** `parse`: rounds until `EndOfFile` or the first error. Every round
      that does not fail consumes a token, so the recursion on the length of
      the stream is the loop's termination. */
  function ParseFrom(rest: seq<Lexed>, stmts: seq<Stmt>): Outcome
    requires StreamOk(rest)
    decreases |rest|
  {
    if Peek(rest).tokentype.EndOfFile? then Outcome(Ok(()), stmts)
    else
      var st := RoundSpec(rest, stmts);
      if st.result.Err? then Outcome(st.result, st.statements) else ParseFrom(st.rest, st.statements)
  }

  // ---------------------------------------------------------------------
  // Properties

  /** Statements are only appended: what the program held before parsing
      is a prefix of what it holds after, whatever the outcome. */
  lemma {:induction false} ParseAppendsOnly(rest: seq<Lexed>, stmts: seq<Stmt>)
    requires StreamOk(rest)
    ensures stmts <= ParseFrom(rest, stmts).statements
    decreases |rest|
  {
    if !Peek(rest).tokentype.EndOfFile? {
      var st := RoundSpec(rest, stmts);
      if st.result.Ok? {
        ParseAppendsOnly(st.rest, st.statements);
      }
    }
  }

  /** A statement cannot start with any token but `let` or an identifier. */
  lemma ParseRejects(rest: seq<Lexed>, stmts: seq<Stmt>)
    requires StreamOk(rest)
    requires !(Peek(rest).tokentype.StartOfFile? || Peek(rest).tokentype.EndOfFile?
               || Peek(rest).tokentype.Let? || Peek(rest).tokentype.Ident?)
    ensures ParseFrom(rest, stmts) == Outcome(Err(UnexpectedToken(Peek(rest), StartMsg)), stmts)
  {
  }

  /** An identifier not followed by `=` is skipped: parsing goes on after
      it with nothing appended. */
  lemma IdentWithoutAssign(x: Token, rest: seq<Lexed>, stmts: seq<Stmt>)
    requires x.tokentype.Ident? && StreamOk(rest) && !Peek(rest).tokentype.Assign?
    ensures StreamOk([Tok(x)] + rest)
    ensures ParseFrom([Tok(x)] + rest, stmts) == ParseFrom(rest, stmts)
  {
    var s := [Tok(x)] + rest;
    assert s[1..] == rest;
  }

  /** When `let x = v` is cut short by a lexing error right after `v`, the
      initialisation has already been appended. */
  lemma InitKeptOnError(r2: seq<Lexed>, id: Identifier, stmts: seq<Stmt>)
    requires StreamOk(r2) && ValueOf(Peek(r2)).Some? && r2[1].Bad?
    ensures InitValue(r2, id, stmts)
            == Step(Err(FromLexingError(r2[1].error)), r2, stmts + [Initialize(id, ValueOf(Peek(r2)).value)])
  {
  }

  /** The token of a right-hand side. */
  function ValueToken(v: RExp): (l: Lexed)
    ensures l.Tok? && ValueOf(l.token) == Some(v)
  {
    match v
    case IntLit(lit) => Tok(Token(IntLiteral(lit.lexeme), lit.loc))
    case IdentExp(id) => Tok(Token(Ident(id.lexeme), id.loc))
  }

  /** The tokens a statement is written with (the keyword and the `=` are
      placed at the statement's first identifier). */
  function StmtTokens(s: Stmt): seq<Lexed> {
    match s
    case Declare(id) => [Tok(Token(Let, id.loc)), Tok(Token(Ident(id.lexeme), id.loc))]
    case Initialize(id, v) =>
      [Tok(Token(Let, id.loc)), Tok(Token(Ident(id.lexeme), id.loc)), Tok(Token(TokenType.Assign, id.loc)), ValueToken(v)]
    case Assign(target, v) => [Tok(Token(Ident(target.lexeme), target.loc)), Tok(Token(TokenType.Assign, target.loc)), ValueToken(v)]
  }

  function ProgramTokens(ss: seq<Stmt>): seq<Lexed> {
    if ss == [] then [] else StmtTokens(ss[0]) + ProgramTokens(ss[1..])
  }

  /** A token that may follow a complete statement. */
  predicate Follows(l: Lexed) {
    l.Tok? && (l.token.tokentype.Let? || l.token.tokentype.Ident? || l.token.tokentype.EndOfFile?)
  }

  lemma DeclareRound(id: Identifier, rest: seq<Lexed>, stmts: seq<Stmt>)
    requires StreamOk(rest) && Follows(rest[0])
    ensures StreamOk(StmtTokens(Declare(id)) + rest)
    ensures RoundSpec(StmtTokens(Declare(id)) + rest, stmts) == Step(Ok(()), rest, stmts + [Declare(id)])
  {
    var ts := StmtTokens(Declare(id)) + rest;
    assert ts[|ts| - 1] == rest[|rest| - 1];
    var r1 := ts[1..];
    assert r1 == [ts[1]] + rest;
    assert r1[1..] == rest;
    assert AfterLetIdent(rest, id, stmts) == Step(Ok(()), rest, stmts + [Declare(id)]);
  }

  lemma InitializeRound(id: Identifier, v: RExp, rest: seq<Lexed>, stmts: seq<Stmt>)
    requires StreamOk(rest) && Follows(rest[0])
    ensures StreamOk(StmtTokens(Initialize(id, v)) + rest)
    ensures RoundSpec(StmtTokens(Initialize(id, v)) + rest, stmts) == Step(Ok(()), rest, stmts + [Initialize(id, v)])
  {
    var ts := StmtTokens(Initialize(id, v)) + rest;
    assert ts[|ts| - 1] == rest[|rest| - 1];
    var r1, r2 := ts[1..], ts[2..];
    assert r1[1..] == r2;
    assert r2 == [ts[2], ts[3]] + rest;
    assert r2[1..] == [ts[3]] + rest;
    var r3 := r2[1..];
    assert r3[1..] == rest;
    assert InitValue(r3, id, stmts) == Step(Ok(()), rest, stmts + [Initialize(id, v)]);
    assert AfterLetIdent(r2, id, stmts) == InitValue(r3, id, stmts);
  }

  lemma AssignRound(target: Identifier, v: RExp, rest: seq<Lexed>, stmts: seq<Stmt>)
    requires StreamOk(rest) && Follows(rest[0])
    ensures StreamOk(StmtTokens(Stmt.Assign(target, v)) + rest)
    ensures RoundSpec(StmtTokens(Stmt.Assign(target, v)) + rest, stmts)
            == Step(Ok(()), rest, stmts + [Stmt.Assign(target, v)])
  {
    var ts := StmtTokens(Stmt.Assign(target, v)) + rest;
    assert ts[|ts| - 1] == rest[|rest| - 1];
    var r1 := ts[1..];
    assert r1 == [ts[1], ts[2]] + rest;
    var r2 := r1[1..];
    assert r2 == [ts[2]] + rest;
    assert r2[1..] == rest;
    assert RexpSpec(r2) == Ok((v, rest));
    assert AssignTail(r1, target, stmts) == Step(Ok(()), rest, stmts + [Stmt.Assign(target, v)]);
  }

  /** The tokens of one statement, followed by the start of the next one or
      by the end, parse to that statement. */
  lemma StmtRoundTrip(s: Stmt, rest: seq<Lexed>, stmts: seq<Stmt>)
    requires StreamOk(rest) && Follows(rest[0])
    ensures StreamOk(StmtTokens(s) + rest)
    ensures ParseFrom(StmtTokens(s) + rest, stmts) == ParseFrom(rest, stmts + [s])
  {
    match s
    case Declare(id) => DeclareRound(id, rest, stmts);
    case Initialize(id, v) => InitializeRound(id, v, rest, stmts);
    case Assign(target, v) => AssignRound(target, v, rest, stmts);
  }

  /** After the tokens of a statement comes a `let`, an identifier or the
      end. */
  lemma NextFollows(ss: seq<Stmt>, eof: Token)
    requires eof.tokentype.EndOfFile?
    ensures Follows((ProgramTokens(ss) + [Tok(eof)])[0])
  {
    if ss != [] {
      assert (ProgramTokens(ss) + [Tok(eof)])[0] == StmtTokens(ss[0])[0];
    }
  }

  /** Parsing the tokens of statements, up to `EndOfFile`, appends exactly
      those statements. */
  lemma {:induction false} ProgramRoundTrip(ss: seq<Stmt>, eof: Token, stmts: seq<Stmt>)
    requires eof.tokentype.EndOfFile?
    ensures StreamOk(ProgramTokens(ss) + [Tok(eof)])
    ensures ParseFrom(ProgramTokens(ss) + [Tok(eof)], stmts) == Outcome(Ok(()), stmts + ss)
  {
    if ss == [] {
      assert ProgramTokens(ss) + [Tok(eof)] == [Tok(eof)];
      assert stmts + ss == stmts;
    } else {
      var head, tail := StmtTokens(ss[0]), ProgramTokens(ss[1..]);
      var rest := tail + [Tok(eof)];
      ProgramRoundTrip(ss[1..], eof, stmts + [ss[0]]);
      NextFollows(ss[1..], eof);
      StmtRoundTrip(ss[0], rest, stmts);
      assert ProgramTokens(ss) + [Tok(eof)] == head + rest by {
        AppendAssoc(head, tail, [Tok(eof)]);
      }
      AppendFirst(stmts, ss);
    }
  }

  lemma AppendFirst<T>(a: seq<T>, s: seq<T>)
    requires s != []
    ensures a + [s[0]] + s[1..] == a + s
  {
    assert s == [s[0]] + s[1..];
  }

  /** A whole source, from `StartOfFile` to `EndOfFile`, parses without
      error to exactly its statements: parsing inverts writing. */
  lemma ParseSource(ss: seq<Stmt>, sof: Token, eof: Token)
    requires sof.tokentype.StartOfFile? && eof.tokentype.EndOfFile?
    ensures StreamOk([Tok(sof)] + ProgramTokens(ss) + [Tok(eof)])
    ensures ParseFrom([Tok(sof)] + ProgramTokens(ss) + [Tok(eof)], []) == Outcome(Ok(()), ss)
  {
    var body := ProgramTokens(ss) + [Tok(eof)];
    ProgramRoundTrip(ss, eof, []);
    SkipStart(sof, body, []);
    assert [Tok(sof)] + ProgramTokens(ss) + [Tok(eof)] == [Tok(sof)] + body;
    assert [] + ss == ss;
  }

  /** `StartOfFile` is consumed and nothing is appended. */
  lemma SkipStart(sof: Token, rest: seq<Lexed>, stmts: seq<Stmt>)
    requires sof.tokentype.StartOfFile? && StreamOk(rest)
    ensures StreamOk([Tok(sof)] + rest)
    ensures ParseFrom([Tok(sof)] + rest, stmts) == ParseFrom(rest, stmts)
  {
    var s := [Tok(sof)] + rest;
    assert s[1..] == rest;
    assert s[1] == rest[0];
  }

  // ---------------------------------------------------------------------
  // The parser

  class Parser {
    /** The lexer's token stream and its cursor. */
    const tokens: seq<Lexed>
    var pos: nat
    /** `program.statements` */
    var statements: seq<Stmt>

    ghost predicate Valid()
      reads this
    {
      pos <= |tokens| && StreamOk(tokens[pos..])
    }

    function Rest(): seq<Lexed>
      reads this
      requires pos <= |tokens|
    {
      tokens[pos..]
    }

    /** A parser at the start of a token stream with an empty program. */
    constructor FromTokens(ts: seq<Lexed>)
      requires StreamOk(ts)
      ensures Valid() && tokens == ts && pos == 0 && statements == []
    {
      tokens := ts;
      pos := 0;
      statements := [];
    }

    /** `lexer.peek()` */
    function PeekToken(): Token
      reads this
      requires Valid()
    {
      tokens[pos].token
    }

    /** `lexer.consume()` */
    method ConsumeToken() returns (r: Result<(), ParsingError>)
      requires Valid() && !PeekToken().tokentype.EndOfFile?
      modifies this
      ensures Valid() && statements == old(statements)
      ensures match Consume(old(Rest()))
              case Err(e) => r == Err(e) && pos == old(pos)
              case Ok(r1) => r == Ok(()) && Rest() == r1
    {
      assert tokens[pos..][1] == tokens[pos + 1];
      if tokens[pos + 1].Bad? {
        return Err(FromLexingError(tokens[pos + 1].error));
      }
      assert tokens[pos..][1..] == tokens[pos + 1..];
      pos := pos + 1;
      r := Ok(());
    }

    /** `rexp` */
    method Rexp() returns (r: Result<RExp, ParsingError>)
      requires Valid()
      modifies this
      ensures Valid() && statements == old(statements)
      ensures match RexpSpec(old(Rest()))
              case Err(e) => r == Err(e)
              case Ok((value, r1)) => r == Ok(value) && Rest() == r1
    {
      var token := PeekToken();
      var value: RExp;
      match token.tokentype {
        case Ident(x) => value := IdentExp(A.Identifier(token.loc, x));
        case IntLiteral(n) => value := IntLit(A.IntLiteral(token.loc, n));
        case _ => return Err(UnexpectedToken(token, RexpMsg));
      }
      var c := ConsumeToken();
      if c.Err? {
        return Err(c.error);
      }
      r := Ok(value);
    }

    /** `lexp` */
    method Lexp() returns (r: Result<Identifier, ParsingError>)
      requires Valid()
      modifies this
      ensures Valid() && statements == old(statements)
      ensures match LexpSpec(old(Rest()))
              case Err(e) => r == Err(e)
              case Ok((id, r1)) => r == Ok(id) && Rest() == r1
    {
      var token := PeekToken();
      if !token.tokentype.Ident? {
        return Err(UnexpectedToken(token, LexpMsg));
      }
      var c := ConsumeToken();
      if c.Err? {
        return Err(c.error);
      }
      r := Ok(A.Identifier(token.loc, token.tokentype.lexeme));
    }

    /** `assign` */
    method AssignStmt() returns (r: Result<(), ParsingError>)
      requires Valid()
      modifies this
      ensures Valid()
      ensures var st := AssignSpec(old(Rest()), old(statements));
              r == st.result && statements == st.statements && (r.Ok? ==> Rest() == st.rest)
    {
      var lexp := Lexp();
      if lexp.Err? {
        return Err(lexp.error);
      }
      var token := PeekToken();
      if !token.tokentype.Assign? {
        return Ok(());
      }
      r := ConsumeToken();
      if r.Err? {
        return;
      }
      var rexp := Rexp();
      if rexp.Err? {
        return Err(rexp.error);
      }
      statements := statements + [Stmt.Assign(lexp.value, rexp.value)];
      r := Ok(());
    }

    /** `decl_or_init` */
    method DeclOrInit() returns (r: Result<(), ParsingError>)
      requires Valid()
      modifies this
      ensures Valid()
      ensures var st := DeclOrInitSpec(old(Rest()), old(statements));
              r == st.result && statements == st.statements && (r.Ok? ==> Rest() == st.rest)
    {
      var token := PeekToken();
      if !token.tokentype.Ident? {
        return Err(UnexpectedToken(token, LetMsg));
      }
      var id := A.Identifier(token.loc, token.tokentype.lexeme);
      r := ConsumeToken();
      if r.Err? {
        return;
      }
      r := DeclTail(id);
    }

    /** `decl_or_init` after `let x`. */
    method DeclTail(id: Identifier) returns (r: Result<(), ParsingError>)
      requires Valid()
      modifies this
      ensures Valid()
      ensures var st := AfterLetIdent(old(Rest()), id, old(statements));
              r == st.result && statements == st.statements && (r.Ok? ==> Rest() == st.rest)
    {
      var token := PeekToken();
      if !token.tokentype.Assign? {
        statements := statements + [Declare(id)];
        return Ok(());
      }
      r := ConsumeToken();
      if r.Err? {
        return;
      }
      r := InitTail(id);
    }

    /** `decl_or_init` after `let x =`. */
    method InitTail(id: Identifier) returns (r: Result<(), ParsingError>)
      requires Valid()
      modifies this
      ensures Valid()
      ensures var st := InitValue(old(Rest()), id, old(statements));
              r == st.result && statements == st.statements && (r.Ok? ==> Rest() == st.rest)
    {
      var token := PeekToken();
      match token.tokentype {
        case Ident(x) =>
          statements := statements + [Initialize(id, IdentExp(A.Identifier(token.loc, x)))];
        case IntLiteral(n) =>
          statements := statements + [Initialize(id, IntLit(A.IntLiteral(token.loc, n)))];
        case _ =>
          return Err(UnexpectedToken(token, RexpMsg));
      }
      r := ConsumeToken();
    }

    /** `parse` */
    method Parse() returns (r: Result<(), ParsingError>)
      requires Valid()
      modifies this
      ensures Valid()
      ensures var o := ParseFrom(old(Rest()), old(statements));
              r == o.result && statements == o.statements
    {
      ghost var rest0, stmts0 := Rest(), statements;
      while true
        invariant Valid()
        invariant ParseFrom(Rest(), statements) == ParseFrom(rest0, stmts0)
        decreases |tokens| - pos
      {
        var token := PeekToken();
        match token.tokentype {
          case StartOfFile =>
            r := ConsumeToken();
            if r.Err? {
              return;
            }
          case EndOfFile =>
            break;
          case Let =>
            r := ConsumeToken();
            if r.Err? {
              return;
            }
            r := DeclOrInit();
            if r.Err? {
              return;
            }
          case Ident(_) =>
            r := AssignStmt();
            if r.Err? {
              return;
            }
          case _ =>
            return Err(UnexpectedToken(token, StartMsg));
        }
      }
      r := Ok(());
    }
  }
}
