/** The program tree the code generators take (src/codegen/codegen.rs and
    src/codegen.rs import it from a parser generation newer than
    src/parser.rs, which has only the first three statement forms), and the
    compiler's error type (src/main.rs). */
module Ast {
  import opened Common

  datatype Identifier = Identifier(loc: Location, lexeme: string)

  datatype IntLiteral = IntLiteral(loc: Location, lexeme: string)

  datatype Term =
    | Ident(id: Identifier)       // `Term::LExp(LExp::Ident(..))`
    | IntLit(lit: IntLiteral)
    | Neg(inner: Term)
    | Bracketed(exp: RExp)

  datatype BinOp = Add | Sub | Mul | Div | Equal | NotEqual | Less | LessEqual | Greater | GreaterEqual

  /** `RExp::Term` and the ten binary variants `RExp::Add(lhs, rhs)` ... */
  datatype RExp =
    | Term(term: Term)
    | Binary(op: BinOp, lhs: RExp, rhs: RExp)

  /** A statement. `elseBranch` is `Some` of a `Block` or of another `If`
      (`else { .. }` or `else if ..`). */
  datatype Stmt =
    | Declare(id: Identifier)                      // `let x;`
    | Initialize(id: Identifier, value: RExp)      // `let x = e;`
    | Assign(target: Identifier, value: RExp)      // `x = e;`
    | ExprStmt(exp: RExp)                          // `e;`
    | Exit(exp: RExp)                              // `exit e;`
    | Block(body: seq<Stmt>)                       // `{ .. }`
    | If(cond: RExp, thenBody: seq<Stmt>, elseBranch: Option<Stmt>)

  /** `CompileError` of src/main.rs, restricted to the variants the semantic
      analysis and the code generators return, plus `UndeclaredIdent`, the
      name the newer code generator gives the undeclared-identifier error. */
  datatype CompileError =
    | RedeclareIdent(ident: Identifier)
    | UseOfUndeclaredIdent(ident: Identifier)
    | UseOfUninitializedIdent(ident: Identifier)
    | UndeclaredIdent(ident: Identifier)

  function OpSymbol(op: BinOp): string {
    match op
    case Add => "+"
    case Sub => "-"
    case Mul => "*"
    case Div => "/"
    case Equal => "=="
    case NotEqual => "!="
    case Less => "<"
    case LessEqual => "<="
    case Greater => ">"
    case GreaterEqual => ">="
  }

  /** Text of an expression inside a comment (stands for its `Display`). */
  function ShowTerm(t: Term): string {
    match t
    case Ident(id) => id.lexeme
    case IntLit(lit) => lit.lexeme
    case Neg(inner) => "-" + ShowTerm(inner)
    case Bracketed(e) => "(" + ShowExp(e) + ")"
  }

  function ShowExp(e: RExp): string {
    match e
    case Term(t) => ShowTerm(t)
    case Binary(op, l, r) => ShowExp(l) + " " + OpSymbol(op) + " " + ShowExp(r)
  }

}
