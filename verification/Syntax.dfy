/** Unchecked rule conditions as trees, their operators' binding powers, and the tokens they are written
in (internal/rules/ast.go, internal/rules/lexer.go). */
module Syntax {
  datatype Op = Or | And | Not | Eq | Ne | Lt | Le | Gt | Ge | Add | Sub | Mul | Div | Neg

  const LOWEST := 0
  const OR := 1
  const AND := 2
  const NOT := 3
  const COMPARE := 4
  const SUM := 5
  const PRODUCT := 6
  const UNARY := 7
  const ATOM := 8

  function Prec(op: Op): nat {
    match op
    case Or => OR
    case And => AND
    case Not => NOT
    case Add => SUM
    case Sub => SUM
    case Mul => PRODUCT
    case Div => PRODUCT
    case Neg => UNARY
    case _ => COMPARE
  }

  datatype Expr =
    | Attr(name: string) | NumberLit(num: real) | StringLit(text: string) | BoolLit(b: bool)
    | Unary(op: Op, x: Expr) | Binary(op: Op, x: Expr, y: Expr) | In(x: Expr, list: Expr)
    | Call(name: string, args: seq<Expr>) | ListRef(name: string) | ListLit(items: seq<Expr>)

  /** The binding power of a tree's outermost operator. */
  function ExprPrec(e: Expr): nat {
    match e
    case Unary(op, _) => Prec(op)
    case Binary(op, _, _) => Prec(op)
    case In(_, _) => COMPARE
    case _ => ATOM
  }

  predicate IsItem(e: Expr) {
    e.StringLit? || (e.NumberLit? && e.num >= 0.0) || (e.Unary? && e.op == Neg && e.x.NumberLit? && e.x.num >= 0.0)
  }

  predicate IsList(e: Expr) {
    e.ListRef? || (e.ListLit? && e.items != [] && forall i :: 0 <= i < |e.items| ==> IsItem(e.items[i]))
  }

  /** A condition as the parser builds them: not and - are prefix and the others infix, a list stands only
  after in, and a number is written without a sign. */
  predicate Plain(e: Expr) {
    match e
    case Attr(_) => true
    case NumberLit(v) => v >= 0.0
    case StringLit(_) => true
    case BoolLit(_) => true
    case Unary(op, x) => (op == Not || op == Neg) && Plain(x)
    case Binary(op, x, y) => op != Not && op != Neg && Plain(x) && Plain(y)
    case In(x, list) => Plain(x) && IsList(list)
    case Call(_, args) => forall i :: 0 <= i < |args| ==> Plain(args[i])
    case ListRef(_) => false
    case ListLit(_) => false
  }

  datatype Token =
    | EndOfLine | Ident(text: string) | AttrTok(name: string) | ListTok(name: string) | NumberTok(num: real)
    | StringTok(text: string)
    | LParen | RParen | LBrack | RBrack | Comma | OpTok(op: Op)
    | AllowTok | BlockTok | ReviewTok | ShadowTok | IfTok | AndTok | OrTok | NotTok | InTok | TrueTok | FalseTok

  /** The operators written as symbols; a minus sign is always the binary one until the parser decides. */
  predicate IsSymbol(op: Op) { op != Or && op != And && op != Not && op != Neg }

  /** A line's tokens, without the one that ends it. */
  predicate IsLine(toks: seq<Token>) {
    forall i :: 0 <= i < |toks| ==>
      !toks[i].EndOfLine? && (toks[i].OpTok? ==> IsSymbol(toks[i].op)) && (toks[i].NumberTok? ==> toks[i].num >= 0.0)
  }

  /** Every name, number and list item of a tree is one whose token is accepted. */
  predicate MadeOf(e: Expr, ok: Token -> bool) {
    match e
    case Attr(name) => ok(AttrTok(name))
    case NumberLit(v) => ok(NumberTok(v))
    case StringLit(_) => true
    case BoolLit(_) => true
    case Unary(_, x) => MadeOf(x, ok)
    case Binary(_, x, y) => MadeOf(x, ok) && MadeOf(y, ok)
    case In(x, list) => MadeOf(x, ok) && MadeOf(list, ok)
    case Call(name, args) => ok(Ident(name)) && forall i :: 0 <= i < |args| ==> MadeOf(args[i], ok)
    case ListRef(name) => ok(ListTok(name))
    case ListLit(items) => forall i :: 0 <= i < |items| ==> MadeOf(items[i], ok)
  }

  predicate AllOf(toks: seq<Token>, ok: Token -> bool) { forall i :: 0 <= i < |toks| ==> ok(toks[i]) }
}
