/** Checked conditions and what they mean: Kleene's three-valued logic over rows with missing values
(internal/rules/doc.go, internal/rules/ast.go; section 6.34 of ISO/IEC 9075-2:2003). */
module Language {
  import opened Numbers
  import opened Rows
  import opened Text

  datatype ArithOp = Plus | Minus | Times | Over
  datatype CmpOp = Eq | Ne | Lt | Le | Gt | Ge

  datatype NumExpr = NumAttr(
    slot: nat) | NumLit(v: Num) | NegOf(x: NumExpr) | Arith(op: ArithOp, x: NumExpr, y: NumExpr)
  datatype StrExpr = StrAttr(slot: nat) | StrLit(s: string) | Lower(x: StrExpr)
  datatype Cond =
    | BoolLit(b: bool) | Not(c: Cond) | And(l: Cond, r: Cond) | Or(l: Cond, r: Cond)
    | CompareNum(op: CmpOp, x: NumExpr, y: NumExpr) | CompareStr(ne: bool, s: StrExpr, t: StrExpr)
    | InNum(x: NumExpr, nums: seq<Num>) | InStr(s: StrExpr, strs: seq<string>)
    | MissingNum(x: NumExpr) | MissingStr(s: StrExpr) | StartsWith(s: StrExpr, prefix: StrExpr)

  // ---- values ----------------------------------------------------------------

  function NumSlot(row: Row, slot: nat): Num { if slot < |row.num| then row.num[slot] else NaN }
  function StrSlot(row: Row, slot: nat): string { if slot < |row.str| then row.str[slot] else "" }

  /** One arithmetic step: a missing operand, or a zero divisor, makes the result missing. */
  function Calc(op: ArithOp, a: Num, b: Num): Num {
    match op
    case Plus => Add(a, b)
    case Minus => Sub(a, b)
    case Times => Mul(a, b)
    case Over => Div(a, b)
  }

  function NumVal(e: NumExpr, row: Row): Num {
    match e
    case NumAttr(slot) => NumSlot(row, slot)
    case NumLit(v) => v
    case NegOf(x) => Neg(NumVal(x, row))
    case Arith(op, x, y) => Calc(op, NumVal(x, row), NumVal(y, row))
  }

  function StrVal(u: Unicode, e: StrExpr, row: Row): string {
    match e
    case StrAttr(slot) => StrSlot(row, slot)
    case StrLit(s) => s
    case Lower(x) => ToLower(u, StrVal(u, x, row))
  }

  /** Whether a op b, for two numbers that are present. */
  predicate Holds(op: CmpOp, a: Num, b: Num) {
    match op
    case Eq => a == b
    case Ne => a != b
    case Lt => Less(a, b)
    case Le => !Less(b, a)
    case Gt => Less(b, a)
    case Ge => !Less(a, b)
  }

  // ---- conditions --------------------------------------------------------------

  datatype Truth = True | False | Unknown

  function Known(b: bool): Truth { if b then True else False }

  function NotT(a: Truth): Truth {
    match a
    case True => False
    case False => True
    case Unknown => Unknown
  }

  function AndT(a: Truth, b: Truth): Truth {
    if a == False || b == False then False else if a == True && b == True then True else Unknown
  }

  function OrT(a: Truth, b: Truth): Truth {
    if a == True || b == True then True else if a == False && b == False then False else Unknown
  }

  function Value(u: Unicode, c: Cond, row: Row): Truth {
    match c
    case BoolLit(b) => Known(b)
    case Not(x) => NotT(Value(u, x, row))
    case And(l, r) => AndT(Value(u, l, row), Value(u, r, row))
    case Or(l, r) => OrT(Value(u, l, row), Value(u, r, row))
    case CompareNum(op, x, y) =>
      var a, b := NumVal(x, row), NumVal(y, row);
      if a.NaN? || b.NaN? then Unknown else Known(Holds(op, a, b))
    case CompareStr(ne, s, t) =>
      var a, b := StrVal(u, s, row), StrVal(u, t, row);
      if a == "" || b == "" then Unknown else Known((a == b) != ne)
    case InNum(x, nums) =>
      var a := NumVal(x, row);
      if a.NaN? then Unknown else Known(a in nums)
    case InStr(s, strs) =>
      var a := StrVal(u, s, row);
      if a == "" then Unknown else Known(a in strs)
    case MissingNum(x) => Known(NumVal(x, row).NaN?)
    case MissingStr(s) => Known(StrVal(u, s, row) == "")
    case StartsWith(s, p) =>
      var a, b := StrVal(u, s, row), StrVal(u, p, row);
      if a == "" || b == "" then Unknown else Known(b <= a)
  }

  /** Whether the truth value is the wanted one of TRUE and FALSE; UNKNOWN never is. */
  predicate Answers(t: Truth, want: bool) { t == if want then True else False }

  // ---- operators the compilers share ---------------------------------------------

  /** A comparison that holds between present numbers only, not even != of a NaN. */
  predicate GoCompare(op: CmpOp, a: Num, b: Num) {
    match op
    case Eq => Same(a, b)
    case Ne => !a.NaN? && !b.NaN? && !Same(a, b)
    case Lt => Less(a, b)
    case Le => Less(a, b) || Same(a, b)
    case Gt => Less(b, a)
    case Ge => Less(b, a) || Same(a, b)
  }

  function Negate(op: CmpOp): CmpOp {
    match op
    case Eq => Ne
    case Ne => Eq
    case Lt => Ge
    case Le => Gt
    case Gt => Le
    case Ge => Lt
  }

  function Flip(op: CmpOp): CmpOp {
    match op
    case Lt => Gt
    case Le => Ge
    case Gt => Lt
    case Ge => Le
    case _ => op
  }

  lemma GoCompareMeans(op: CmpOp, a: Num, b: Num)
    ensures GoCompare(op, a, b) <==> !a.NaN? && !b.NaN? && Holds(op, a, b)
  {}

  lemma NegateMeans(op: CmpOp, a: Num, b: Num)
    requires !a.NaN? && !b.NaN?
    ensures Holds(Negate(op), a, b) <==> !Holds(op, a, b)
  {}

  lemma FlipMeans(op: CmpOp, a: Num, b: Num)
    ensures GoCompare(Flip(op), b, a) <==> GoCompare(op, a, b)
  {}
}
