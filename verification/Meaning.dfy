/** When a condition holds, said in plain terms: the order of the reals, their arithmetic, and one rule for each way
of answering yes or no (internal/rules/doc.go). The three-valued logic of Language is proved to be this. */
module Meaning {
  import opened Numbers
  import opened Domain
  import opened Rows
  import opened Text
  import opened Language

  // ---- comparisons ---------------------------------------------------------------------------------

  predicate IsSo(op: CmpOp, x: real, y: real) {
    match op
    case Eq => x == y
    case Ne => x != y
    case Lt => x < y
    case Le => x <= y
    case Gt => x > y
    case Ge => x >= y
  }

  /** Both numbers are present and compare so: reals by their order, the infinities outside them, each like itself. */
  predicate Stands(op: CmpOp, v: Num, w: Num) {
    match (v, w)
    case (NaN, _) => false
    case (_, NaN) => false
    case (Fin(x), Fin(y)) => IsSo(op, x, y)
    case (NegInf, NegInf) => op == Eq || op == Le || op == Ge
    case (PosInf, PosInf) => op == Eq || op == Le || op == Ge
    case (NegInf, _) => op == Ne || op == Lt || op == Le
    case (_, PosInf) => op == Ne || op == Lt || op == Le
    case (PosInf, _) => op == Ne || op == Gt || op == Ge
    case (_, NegInf) => op == Ne || op == Gt || op == Ge
  }

  lemma ComparesAsItStands(op: CmpOp, v: Num, w: Num)
    ensures Stands(op, v, w) <==> !v.NaN? && !w.NaN? && Holds(op, v, w)
  {}

  lemma AbsentNeverStands(op: CmpOp, v: Num, w: Num)
    ensures Stands(op, v, w) ==> !v.NaN? && !w.NaN?
  {}

  // ---- arithmetic -----------------------------------------------------------------------------------

  /** No infinity is written in the expression or stands in a slot it reads. */
  predicate Ordinary(e: NumExpr, row: Row) {
    match e
    case NumAttr(slot) => slot < |row.num| ==> row.num[slot].Fin? || row.num[slot].NaN?
    case NumLit(v) => v.Fin? || v.NaN?
    case NegOf(x) => Ordinary(x, row)
    case Arith(_, x, y) => Ordinary(x, row) && Ordinary(y, row)
  }

  /** What school arithmetic gives; none if something it needs is missing or a divisor is zero. */
  function Result(e: NumExpr, row: Row): Option<real> {
    match e
    case NumAttr(slot) => if slot < |row.num| && row.num[slot].Fin? then Some(row.num[slot].v) else None
    case NumLit(v) => if v.Fin? then Some(v.v) else None
    case NegOf(x) =>
      var a := Result(x, row);
      if a.None? then None else Some(-a.value)
    case Arith(op, x, y) =>
      var a, b := Result(x, row), Result(y, row);
      if a.None? || b.None? then None else OnReals(op, a.value, b.value)
  }

  function OnReals(op: ArithOp, a: real, b: real): Option<real> {
    match op
    case Plus => Some(a + b)
    case Minus => Some(a - b)
    case Times => Some(a * b)
    case Over => if b == 0.0 then None else Some(a / b)
  }

  function AsNum(r: Option<real>): Num { if r.Some? then Fin(r.value) else NaN }

  lemma CalcOnReals(op: ArithOp, a: real, b: real)
    ensures Calc(op, Fin(a), Fin(b)) == AsNum(OnReals(op, a, b))
  {}

  lemma CalcMissing(op: ArithOp, a: Num, b: Num)
    requires a.NaN? || b.NaN?
    ensures Calc(op, a, b) == NaN
  {}

  /** An expression without infinities is worth what arithmetic on the reals gives, and missing when that is nothing. */
  lemma {:induction false} Computes(e: NumExpr, row: Row)
    requires Ordinary(e, row)
    ensures NumVal(e, row) == AsNum(Result(e, row))
  {
    hide Calc, OnReals;
    match e
    case NumAttr(_) =>
    case NumLit(_) =>
    case NegOf(x) => Computes(x, row);
    case Arith(op, x, y) =>
      Computes(x, row);
      Computes(y, row);
      var a, b := Result(x, row), Result(y, row);
      if a.Some? && b.Some? { CalcOnReals(op, a.value, b.value); } else { CalcMissing(op, AsNum(a), AsNum(b)); }
  }

  // ---- conditions -----------------------------------------------------------------------------------

  /** The condition answers yes, or it answers no; about something missing it does neither. */
  predicate Says(u: Unicode, c: Cond, row: Row, yes: bool) {
    match c
    case BoolLit(b) => b == yes
    case Not(x) => Says(u, x, row, !yes)
    case And(l, r) => if yes then Says(u, l, row, true) && Says(u, r, row, true)
      else Says(u, l, row, false) || Says(u, r, row, false)
    case Or(l, r) => if yes then Says(u, l, row, true) || Says(u, r, row, true)
      else Says(u, l, row, false) && Says(u, r, row, false)
    case CompareNum(op, x, y) =>
      var a, b := NumVal(x, row), NumVal(y, row);
      !a.NaN? && !b.NaN? && Stands(op, a, b) == yes
    case CompareStr(ne, s, t) =>
      var a, b := StrVal(u, s, row), StrVal(u, t, row);
      a != "" && b != "" && yes == if ne then a != b else a == b
    case InNum(x, nums) =>
      var a := NumVal(x, row);
      !a.NaN? && yes == exists i :: 0 <= i < |nums| && nums[i] == a
    case InStr(s, strs) =>
      var a := StrVal(u, s, row);
      a != "" && yes == exists i :: 0 <= i < |strs| && strs[i] == a
    case MissingNum(x) => NumVal(x, row).NaN? == yes
    case MissingStr(s) => (StrVal(u, s, row) == "") == yes
    case StartsWith(s, p) =>
      var a, b := StrVal(u, s, row), StrVal(u, p, row);
      a != "" && b != "" && yes == (|b| <= |a| && a[..|b|] == b)
  }

  /** A condition's value is TRUE exactly when it answers yes and FALSE exactly when it answers no. */
  lemma {:induction false} SaysItsValue(u: Unicode, c: Cond, row: Row, yes: bool)
    ensures Says(u, c, row, yes) <==> Answers(Value(u, c, row), yes)
  {
    hide NumVal, StrVal, Holds, Stands;
    match c
    case BoolLit(_) =>
    case Not(x) => SaysItsValue(u, x, row, !yes);
    case And(l, r) =>
      SaysItsValue(u, l, row, yes);
      SaysItsValue(u, r, row, yes);
    case Or(l, r) =>
      SaysItsValue(u, l, row, yes);
      SaysItsValue(u, r, row, yes);
    case CompareNum(op, x, y) => ComparesAsItStands(op, NumVal(x, row), NumVal(y, row));
    case _ =>
  }

  /** It never answers both, and says of a missing value nothing unless asked whether it is missing. */
  lemma NeverBoth(u: Unicode, c: Cond, row: Row)
    ensures !(Says(u, c, row, true) && Says(u, c, row, false))
  {
    SaysItsValue(u, c, row, true);
    SaysItsValue(u, c, row, false);
    hide Value, Says;
  }
}
