/** Conditions compiled to closures over one row. Each closure is built for one truth value and answers whether the
condition has it; Kleene's third value is never built for (internal/rules/compile.go). */
module Closures {
  import opened Numbers
  import opened Domain
  import opened Rows
  import opened Text
  import opened Language
  import opened Meaning

  datatype NumC = NumC(fn: Row -> Num, konst: bool, v: Num, slot: Option<nat>)
  datatype StrC = StrC(fn: Row -> string, lower: bool, konst: bool, v: string, slot: Option<nat>)
  datatype BoolC = BoolC(fn: Row -> bool, konst: bool, v: bool)

  /** The row constants are folded against. */
  const EMPTY := Row([], [])

  function NumConst(v: Num): NumC { NumC(r => v, true, v, None) }
  function StrConst(v: string): StrC { StrC(r => v, false, true, v, None) }
  function BoolConst(v: bool): BoolC { BoolC(r => v, true, v) }
  function Dynamic(fn: Row -> bool): BoolC { BoolC(fn, false, false) }

  /** Folds a closure without variable inputs to the answer it gives on every row. */
  function FoldBool(fn: Row -> bool, allConst: bool): BoolC {
    if allConst then BoolConst(fn(EMPTY)) else Dynamic(fn)
  }

  // ---- numbers and text --------------------------------------------------------

  function CalcFn(op: ArithOp, x: NumC, y: NumC): Row -> Num {
    var xf, yf := x.fn, y.fn;
    if y.konst && !x.konst then
      var c := y.v;
      r => Calc(op, xf(r), c)
    else if x.konst && !y.konst then
      var c := x.v;
      r => Calc(op, c, yf(r))
    else r => Calc(op, xf(r), yf(r))
  }

  function CompileNum(e: NumExpr): NumC {
    match e
    case NumAttr(slot) => NumC(r => NumSlot(r, slot), false, ZERO, Some(slot))
    case NumLit(v) => NumConst(v)
    case NegOf(a) =>
      var x := CompileNum(a);
      if x.konst then NumConst(Neg(x.v))
      else
        var xf := x.fn;
        NumC(r => Neg(xf(r)), false, ZERO, None)
    case Arith(op, a, b) =>
      var x, y := CompileNum(a), CompileNum(b);
      var fn := CalcFn(op, x, y);
      if x.konst && y.konst then NumConst(fn(EMPTY))
      else if y.konst && op == Over && y.v == ZERO then NumConst(NaN)
      else NumC(fn, false, ZERO, None)
  }

  function CompileStr(u: Unicode, e: StrExpr): StrC {
    match e
    case StrAttr(slot) => StrC(r => StrSlot(r, slot), false, false, "", Some(slot))
    case StrLit(s) => StrConst(s)
    case Lower(a) =>
      var x := CompileStr(u, a);
      if x.konst then StrConst(ToLower(u, x.v)) else x.(lower := true)
  }

  // ---- conditions ----------------------------------------------------------------

  function CompileBool(u: Unicode, c: Cond, want: bool): BoolC {
    match c
    case BoolLit(b) => BoolConst(b == want)
    case Not(x) => CompileBool(u, x, !want)
    case And(l, r) => Logical(!want, CompileBool(u, l, want), CompileBool(u, r, want))
    case Or(l, r) => Logical(want, CompileBool(u, l, want), CompileBool(u, r, want))
    case CompareNum(op, x, y) => CompareNumC(if want then op else Negate(op), CompileNum(x), CompileNum(y))
    case CompareStr(ne, s, t) => CompareStrC(u, if want then ne else !ne, CompileStr(u, s), CompileStr(u, t))
    case InNum(x, nums) => InNumC(CompileNum(x), nums, want)
    case InStr(s, strs) => InStrC(u, CompileStr(u, s), strs, want)
    case MissingNum(x) => MissingNumC(CompileNum(x), want)
    case MissingStr(s) => MissingStrC(CompileStr(u, s), want)
    case StartsWith(s, p) => StartsWithC(u, CompileStr(u, s), CompileStr(u, p), want)
  }

  /** Joins two closures, folding away a side whose answer is known. */
  function Logical(or: bool, x: BoolC, y: BoolC): BoolC {
    if x.konst then if x.v == or then BoolConst(or) else y
    else if y.konst then if y.v == or then BoolConst(or) else x
    else
      var xf, yf := x.fn, y.fn;
      if or then Dynamic(r => xf(r) || yf(r)) else Dynamic(r => xf(r) && yf(r))
  }

  /** The closure that compares two numbers; a missing one makes it say no. */
  function CompareNumC(op0: CmpOp, x0: NumC, y0: NumC): BoolC {
    var swap := x0.konst && !y0.konst;
    var x, y := if swap then y0 else x0, if swap then x0 else y0;
    var op := if swap then Flip(op0) else op0;
    var xf, yf := x.fn, y.fn;
    if y.konst && !x.konst then
      var c := y.v;
      if c.NaN? then BoolConst(false)
      else if x.slot.Some? then
        var s := x.slot.value;
        Dynamic(r => CompareConst(op, NumSlot(r, s), c))
      else Dynamic(r => CompareConst(op, xf(r), c))
    else FoldBool(r => GoCompare(op, xf(r), yf(r)), x.konst && y.konst)
  }

  /** A comparison with a constant that is present: only != has to rule missing out. */
  predicate CompareConst(op: CmpOp, v: Num, c: Num) {
    if op == Ne then !v.NaN? && !Same(v, c) else GoCompare(op, v, c)
  }

  predicate FoldEq(u: Unicode, a: string, lowerA: bool, b: string, lowerB: bool) {
    View(u, a, lowerA) == View(u, b, lowerB)
  }

  /** The closure that compares two texts; an empty one makes it say no. */
  function CompareStrC(u: Unicode, ne: bool, x0: StrC, y0: StrC): BoolC {
    var swap := x0.konst && !y0.konst;
    var x, y := if swap then y0 else x0, if swap then x0 else y0;
    var xf, yf, xl, yl := x.fn, y.fn, x.lower, y.lower;
    if y.konst && !x.konst then
      var c := y.v;
      if c == "" then BoolConst(false)
      else if x.slot.Some? && !xl then
        var s := x.slot.value;
        if ne then Dynamic(r => StrSlot(r, s) != "" && StrSlot(r, s) != c) else Dynamic(r => StrSlot(r, s) == c)
      else Dynamic(r => xf(r) != "" && FoldEq(u, xf(r), xl, c, false) != ne)
    else FoldBool(r => xf(r) != "" && yf(r) != "" && FoldEq(u, xf(r), xl, yf(r), yl) != ne, x.konst && y.konst)
  }

  /** Lists up to this long are scanned, longer ones hashed. */
  const LINEAR_MAX := 8
  const LOWER_BUF := 128

  predicate ScanNum(nums: seq<Num>, v: Num) {
    nums != [] && (Same(v, nums[0]) || ScanNum(nums[1..], v))
  }

  predicate ScanStr(u: Unicode, strs: seq<string>, v: string, lower: bool) {
    strs != [] && (FoldEq(u, v, lower, strs[0], false) || ScanStr(u, strs[1..], v, lower))
  }

  /** "x is present and is in, or is not in, the list". */
  function InNumC(x: NumC, nums: seq<Num>, want: bool): BoolC {
    var xf := x.fn;
    if |nums| <= LINEAR_MAX then
      FoldBool(r => !xf(r).NaN? && (if ScanNum(nums, xf(r)) then want else !want), x.konst)
    else
      var hashed := set v | v in nums && !v.NaN?;
      FoldBool(r => !xf(r).NaN? && (xf(r) in hashed) == want, x.konst)
  }

  function InStrC(u: Unicode, x: StrC, strs: seq<string>, want: bool): BoolC {
    var xf, xl := x.fn, x.lower;
    if |strs| <= LINEAR_MAX then
      FoldBool(r => xf(r) != "" && (if ScanStr(u, strs, xf(r), xl) then want else !want), x.konst)
    else
      var hashed := set v | v in strs;
      if !xl then FoldBool(r => xf(r) != "" && (xf(r) in hashed) == want, x.konst)
      else
        FoldBool(r => xf(r) != "" &&
                      (if |ToLower(u, xf(r))| <= LOWER_BUF then (ToLower(u, xf(r)) in hashed) == want
                       else if ScanStr(u, strs, xf(r), true) then want else !want), x.konst)
  }

  function MissingNumC(x: NumC, want: bool): BoolC {
    if x.slot.Some? then
      var s := x.slot.value;
      Dynamic(r => NumSlot(r, s).NaN? == want)
    else
      var xf := x.fn;
      FoldBool(r => xf(r).NaN? == want, x.konst)
  }

  /** The unlowered value answers for its lowered form too. */
  function MissingStrC(x: StrC, want: bool): BoolC {
    var xf := x.fn;
    FoldBool(r => (xf(r) == "") == want, x.konst)
  }

  predicate FoldPrefix(u: Unicode, s: string, lowerS: bool, prefix: string, lowerP: bool) {
    View(u, prefix, lowerP) <= View(u, s, lowerS)
  }

  function StartsWithC(u: Unicode, x: StrC, p: StrC, want: bool): BoolC {
    var xf, pf, xl, pl := x.fn, p.fn, x.lower, p.lower;
    if p.konst && !x.konst then
      var c := p.v;
      if c == "" then BoolConst(false)
      else if x.slot.Some? && !xl then
        var s := x.slot.value;
        if want then Dynamic(r => c <= StrSlot(r, s)) else Dynamic(r => StrSlot(r, s) != "" && !(c <= StrSlot(r, s)))
      else Dynamic(r => xf(r) != "" && FoldPrefix(u, xf(r), xl, c, false) == want)
    else FoldBool(r => xf(r) != "" && pf(r) != "" && FoldPrefix(u, xf(r), xl, pf(r), pl) == want, x.konst && p.konst)
  }

  // ---- what the closures answer -----------------------------------------------------

  /** The closure for a number computes it, and a constant is its value on every row. */
  predicate NumFits(x: NumC, e: NumExpr, row: Row) {
    && x.fn(row) == NumVal(e, row)
    && (x.konst ==> x.v == NumVal(e, row))
    && (x.slot.Some? ==> !x.konst && NumVal(e, row) == NumSlot(row, x.slot.value))
  }

  lemma {:induction false} NumIsCompiled(e: NumExpr, row: Row)
    ensures NumFits(CompileNum(e), e, row)
  {
    match e
    case NumAttr(_) =>
    case NumLit(_) =>
    case NegOf(x) => NumIsCompiled(x, row);
    case Arith(op, x, y) =>
      NumIsCompiled(x, row);
      NumIsCompiled(y, row);
      NumIsCompiled(x, EMPTY);
      NumIsCompiled(y, EMPTY);
      hide Add, Sub, Mul;
  }

  predicate StrFits(u: Unicode, x: StrC, e: StrExpr, row: Row) {
    && View(u, x.fn(row), x.lower) == StrVal(u, e, row)
    && (x.fn(row) == "" <==> StrVal(u, e, row) == "")
    && (x.konst ==> !x.lower && x.v == StrVal(u, e, row))
    && (x.slot.Some? ==> !x.konst && x.fn(row) == StrSlot(row, x.slot.value))
  }

  lemma {:induction false} StrIsCompiled(u: Unicode, e: StrExpr, row: Row)
    requires Sane(u)
    ensures StrFits(u, CompileStr(u, e), e, row)
  {
    match e
    case StrAttr(_) =>
    case StrLit(_) =>
    case Lower(x) =>
      StrIsCompiled(u, x, row);
      ToLowerIdempotent(u, CompileStr(u, x).fn(row));
      ToLowerIdempotent(u, StrVal(u, x, row));
      hide Sane, ToLower;
  }

  /** The closure answers the question, and a constant is the answer on every row. */
  predicate Fits(b: BoolC, answer: bool, row: Row) {
    b.fn(row) == answer && (b.konst ==> b.v == answer)
  }

  lemma LogicalFits(or: bool, x: BoolC, y: BoolC, a: bool, b: bool, row: Row)
    requires Fits(x, a, row) && Fits(y, b, row)
    ensures Fits(Logical(or, x, y), if or then a || b else a && b, row)
  {}

  lemma {:induction false} ScanNumMeans(nums: seq<Num>, v: Num)
    requires !v.NaN?
    ensures ScanNum(nums, v) <==> v in nums
    decreases |nums|
  {
    if nums != [] { ScanNumMeans(nums[1..], v); }
  }

  lemma {:induction false} ScanStrMeans(u: Unicode, strs: seq<string>, v: string, lower: bool)
    ensures ScanStr(u, strs, v, lower) <==> View(u, v, lower) in strs
    decreases |strs|
  {
    hide ToLower;
    if strs != [] { ScanStrMeans(u, strs[1..], v, lower); }
  }

  lemma CompareNumFits(op: CmpOp, x: NumC, y: NumC, d: NumExpr, e: NumExpr, row: Row)
    requires NumFits(x, d, row) && NumFits(y, e, row) && NumFits(x, d, EMPTY) && NumFits(y, e, EMPTY)
    ensures var a, b := NumVal(d, row), NumVal(e, row);
            Fits(CompareNumC(op, x, y), !a.NaN? && !b.NaN? && Holds(op, a, b), row)
  {
    var a, b := NumVal(d, row), NumVal(e, row);
    GoCompareMeans(op, a, b);
    GoCompareMeans(Flip(op), b, a);
    FlipMeans(op, a, b);
    hide Less, Holds, NumVal;
  }

  lemma CompareStrFits(u: Unicode, ne: bool, x: StrC, y: StrC, d: StrExpr, e: StrExpr, row: Row)
    requires StrFits(u, x, d, row) && StrFits(u, y, e, row) && StrFits(u, x, d, EMPTY) && StrFits(u, y, e, EMPTY)
    ensures var a, b := StrVal(u, d, row), StrVal(u, e, row);
            Fits(CompareStrC(u, ne, x, y), a != "" && b != "" && (a == b) != ne, row)
  {
    hide StrVal, ToLower;
  }

  lemma InNumFits(x: NumC, nums: seq<Num>, want: bool, e: NumExpr, row: Row)
    requires NumFits(x, e, row) && NumFits(x, e, EMPTY)
    ensures var a := NumVal(e, row);
            Fits(InNumC(x, nums, want), !a.NaN? && (a in nums) == want, row)
  {
    if !NumVal(e, row).NaN? { ScanNumMeans(nums, NumVal(e, row)); }
    if !NumVal(e, EMPTY).NaN? { ScanNumMeans(nums, NumVal(e, EMPTY)); }
    hide NumVal, ScanNum;
  }

  lemma InStrFits(u: Unicode, x: StrC, strs: seq<string>, want: bool, e: StrExpr, row: Row)
    requires StrFits(u, x, e, row) && StrFits(u, x, e, EMPTY)
    ensures var a := StrVal(u, e, row);
            Fits(InStrC(u, x, strs, want), a != "" && (a in strs) == want, row)
  {
    ScanStrMeans(u, strs, x.fn(row), x.lower);
    ScanStrMeans(u, strs, x.fn(EMPTY), x.lower);
    hide StrVal, ToLower, ScanStr;
  }

  lemma MissingFits(u: Unicode, x: NumC, y: StrC, want: bool, d: NumExpr, e: StrExpr, row: Row)
    ensures NumFits(x, d, row) && NumFits(x, d, EMPTY) ==> Fits(MissingNumC(x, want), NumVal(d, row).NaN? == want, row)
    ensures StrFits(u, y, e, row) && StrFits(u, y, e, EMPTY) ==>
              Fits(MissingStrC(y, want), (StrVal(u, e, row) == "") == want, row)
  {
    hide NumVal, StrVal, ToLower;
  }

  lemma StartsWithFits(u: Unicode, x: StrC, p: StrC, want: bool, d: StrExpr, e: StrExpr, row: Row)
    requires StrFits(u, x, d, row) && StrFits(u, p, e, row) && StrFits(u, x, d, EMPTY) && StrFits(u, p, e, EMPTY)
    ensures var a, b := StrVal(u, d, row), StrVal(u, e, row);
            Fits(StartsWithC(u, x, p, want), a != "" && b != "" && (b <= a) == want, row)
  {
    hide StrVal, ToLower;
  }

  /** The closure compiled to ask "is it TRUE?" (want) or "is it FALSE?" answers yes on a row exactly
  when Kleene logic says so; a missing value answers no to both. */
  lemma {:induction false} CompiledMeansKleene(u: Unicode, c: Cond, want: bool, row: Row)
    requires Sane(u)
    ensures Fits(CompileBool(u, c, want), Answers(Value(u, c, row), want), row)
  {
    hide Sane, CompareNumC, CompareStrC, InNumC, InStrC, MissingNumC, MissingStrC, StartsWithC, Logical, CompileNum;
    hide CompileStr;
    hide Holds, NumVal, StrVal, NumFits, StrFits;
    match c
    case BoolLit(_) =>
    case Not(x) => CompiledMeansKleene(u, x, !want, row);
    case And(l, r) =>
      CompiledMeansKleene(u, l, want, row);
      CompiledMeansKleene(u, r, want, row);
      LogicalFits(!want, CompileBool(u, l, want), CompileBool(u, r, want),
                  Answers(Value(u, l, row), want), Answers(Value(u, r, row), want), row);
    case Or(l, r) =>
      CompiledMeansKleene(u, l, want, row);
      CompiledMeansKleene(u, r, want, row);
      LogicalFits(want, CompileBool(u, l, want), CompileBool(u, r, want),
                  Answers(Value(u, l, row), want), Answers(Value(u, r, row), want), row);
    case CompareNum(op, x, y) =>
      NumBothRows(x, row);
      NumBothRows(y, row);
      CompareNumFits(if want then op else Negate(op), CompileNum(x), CompileNum(y), x, y, row);
      if !NumVal(x, row).NaN? && !NumVal(y, row).NaN? { NegateMeans(op, NumVal(x, row), NumVal(y, row)); }
    case CompareStr(ne, s, t) =>
      StrBothRows(u, s, row);
      StrBothRows(u, t, row);
      CompareStrFits(u, if want then ne else !ne, CompileStr(u, s), CompileStr(u, t), s, t, row);
    case InNum(x, nums) =>
      NumBothRows(x, row);
      InNumFits(CompileNum(x), nums, want, x, row);
    case InStr(s, strs) =>
      StrBothRows(u, s, row);
      InStrFits(u, CompileStr(u, s), strs, want, s, row);
    case MissingNum(x) =>
      NumBothRows(x, row);
      MissingFits(u, CompileNum(x), StrConst(""), want, x, StrLit(""), row);
    case MissingStr(s) =>
      StrBothRows(u, s, row);
      MissingFits(u, NumConst(NaN), CompileStr(u, s), want, NumLit(NaN), s, row);
    case StartsWith(s, p) =>
      StrBothRows(u, s, row);
      StrBothRows(u, p, row);
      StartsWithFits(u, CompileStr(u, s), CompileStr(u, p), want, s, p, row);
  }

  /** So it answers yes exactly when the condition answers what it was built to ask. */
  lemma CompiledSays(u: Unicode, c: Cond, want: bool, row: Row)
    requires Sane(u)
    ensures CompileBool(u, c, want).fn(row) <==> Says(u, c, row, want)
  {
    CompiledMeansKleene(u, c, want, row);
    SaysItsValue(u, c, row, want);
    hide CompileBool, Says, Value;
  }

  /** Comparing an attribute with a number, or with another attribute, it answers yes on exactly the rows whose
  numbers are present and compare so. */
  lemma CompiledCompares(u: Unicode, op: CmpOp, slot: nat, y: Num, other: nat, row: Row)
    requires Sane(u) && slot < |row.num| && other < |row.num|
    ensures CompileBool(u, CompareNum(op, NumAttr(slot), NumLit(y)), true).fn(row) <==> Stands(op, row.num[slot], y)
    ensures CompileBool(u, CompareNum(op, NumAttr(slot), NumAttr(other)), true).fn(row)
            <==> Stands(op, row.num[slot], row.num[other])
  {
    CompiledSays(u, CompareNum(op, NumAttr(slot), NumLit(y)), true, row);
    CompiledSays(u, CompareNum(op, NumAttr(slot), NumAttr(other)), true, row);
    hide CompileBool, Stands;
    AbsentNeverStands(op, row.num[slot], y);
    AbsentNeverStands(op, row.num[slot], row.num[other]);
  }

  lemma NumBothRows(e: NumExpr, row: Row)
    ensures NumFits(CompileNum(e), e, row) && NumFits(CompileNum(e), e, EMPTY)
  {
    NumIsCompiled(e, row);
    NumIsCompiled(e, EMPTY);
  }

  lemma StrBothRows(u: Unicode, e: StrExpr, row: Row)
    requires Sane(u)
    ensures StrFits(u, CompileStr(u, e), e, row) && StrFits(u, CompileStr(u, e), e, EMPTY)
  {
    StrIsCompiled(u, e, row);
    StrIsCompiled(u, e, EMPTY);
  }
}
