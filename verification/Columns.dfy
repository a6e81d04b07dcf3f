/** The backtester's column store and the column operators conditions compile to, with what each
operator means on one row (internal/backtest/table.go, internal/backtest/ops.go). */
module Columns {
  import opened Numbers
  import opened Domain
  import opened Rows
  import opened Language
  import opened Meaning

  /** Number columns, and text columns as codes into a dictionary whose entry 0 is missing. */
  datatype Table = Table(n: nat, num: seq<seq<Num>>, codes: seq<seq<nat>>, dict: seq<seq<string>>)

  ghost predicate TextFits(t: Table, c: nat)
    requires c < |t.codes| == |t.dict|
  {
    && |t.codes[c]| == t.n && |t.dict[c]| > 0 && t.dict[c][0] == ""
    && (forall k :: 0 < k < |t.dict[c]| ==> t.dict[c][k] != "")
    && (forall i :: 0 <= i < t.n ==> t.codes[c][i] < |t.dict[c]|)
  }

  /** What the builder makes. */
  ghost predicate Built(t: Table) {
    && (forall c :: 0 <= c < |t.num| ==> |t.num[c]| == t.n)
    && |t.codes| == |t.dict|
    && (forall c :: 0 <= c < |t.codes| ==> TextFits(t, c))
  }

  function TextAt(t: Table, c: nat, i: nat): string {
    if c < |t.codes| && c < |t.dict| && i < |t.codes[c]| && t.codes[c][i] < |t.dict[c]| then t.dict[c][t.codes[c][i]]
      else ""
  }

  function NumberAt(t: Table, c: nat, i: nat): Num {
    if c < |t.num| && i < |t.num[c]| then t.num[c][i] else NaN
  }

  /** Row i, as the closures see it. */
  function RowAt(t: Table, i: nat): Row {
    Row(seq(|t.num|, c requires 0 <= c => NumberAt(t, c, i)), seq(|t.codes|, c requires 0 <= c => TextAt(t, c, i)))
  }

  /** A condition the compiler accepts: its attributes are the table's, its lists sorted. */
  predicate NumIn(t: Table, e: NumExpr) {
    match e
    case NumAttr(slot) => slot < |t.num|
    case NumLit(_) => true
    case NegOf(x) => NumIn(t, x)
    case Arith(_, x, y) => NumIn(t, x) && NumIn(t, y)
  }

  predicate StrIn(t: Table, e: StrExpr) {
    match e
    case StrAttr(slot) => slot < |t.codes|
    case StrLit(_) => true
    case Lower(x) => StrIn(t, x)
  }

  /** Ascending, and no missing value among them. */
  predicate SortedNums(s: seq<Num>) {
    s != [] ==> !s[0].NaN? && (|s| > 1 ==> !Less(s[1], s[0])) && SortedNums(s[1..])
  }

  /** Byte by byte, a prefix first. */
  predicate StrLess(a: string, b: string) {
    b != "" && (a == "" || a[0] < b[0] || (a[0] == b[0] && StrLess(a[1..], b[1..])))
  }

  predicate SortedStrs(s: seq<string>) {
    |s| > 1 ==> !StrLess(s[1], s[0]) && SortedStrs(s[1..])
  }

  lemma {:induction false} LaterIsNoLess(s: seq<Num>, j: nat)
    requires SortedNums(s) && 0 < j < |s|
    ensures !s[0].NaN? && Stands(Le, s[0], s[j])
  {
    if j > 1 { LaterIsNoLess(s[1..], j - 1); }
  }

  /** Numbers are sorted when all are present and each is at most every later one. */
  lemma {:induction false} SortedAscend(s: seq<Num>)
    ensures SortedNums(s) <==>
              (forall i :: 0 <= i < |s| ==> !s[i].NaN?) && (forall i, j :: 0 <= i < j < |s| ==> Stands(Le, s[i], s[j]))
  {
    if s != [] {
      SortedAscend(s[1..]);
      hide Stands, Less;
      if SortedNums(s) {
        forall j | 0 < j < |s| ensures Stands(Le, s[0], s[j]) { LaterIsNoLess(s, j); }
        forall i | 0 <= i < |s| ensures !s[i].NaN? { if i > 0 { assert s[1..][i - 1] == s[i]; } }
        forall i, j | 0 <= i < j < |s| ensures Stands(Le, s[i], s[j]) {
          if i > 0 { assert s[1..][i - 1] == s[i] && s[1..][j - 1] == s[j]; }
        }
      }
      if |s| > 1 { LeIsNotMore(s[0], s[1]); }
    }
  }

  lemma LeIsNotMore(a: Num, b: Num)
    ensures Stands(Le, a, b) ==> !Less(b, a)
  {}

  /** The two texts are alike up to a place where the first ends or has the smaller byte. */
  predicate Differs(a: string, b: string, k: nat) {
    k <= |a| && k < |b| && a[..k] == b[..k] && (k == |a| || a[k] < b[k])
  }

  lemma BeganAlike(a: string, b: string, k: nat)
    requires Differs(a, b, k)
    ensures k > 0 ==> a != "" && b != "" && a[0] == b[0]
  {
    if k > 0 { assert a[..k][0] == b[..k][0]; }
  }

  /** One text is less when it ends, or has the smaller byte, where they first differ. */
  lemma {:induction false} LessIsFirstDifference(a: string, b: string)
    ensures StrLess(a, b) <==> exists k: nat :: Differs(a, b, k)
    decreases |a|
  {
    if b == "" || a == "" || a[0] != b[0] {
      if b != "" && (a == "" || a[0] < b[0]) { assert Differs(a, b, 0); }
      forall k: nat | Differs(a, b, k) ensures k == 0 { BeganAlike(a, b, k); }
    } else {
      LessIsFirstDifference(a[1..], b[1..]);
      if StrLess(a, b) {
        var k: nat :| Differs(a[1..], b[1..], k);
        assert a[..k + 1] == [a[0]] + a[1..][..k] && b[..k + 1] == [b[0]] + b[1..][..k];
        assert Differs(a, b, k + 1);
      }
      forall k: nat | Differs(a, b, k) ensures StrLess(a, b) {
        assert k > 0;
        assert a[1..][..k - 1] == a[..k][1..] && b[1..][..k - 1] == b[..k][1..];
        assert Differs(a[1..], b[1..], k - 1);
      }
    }
  }

  predicate Compilable(t: Table, c: Cond) {
    match c
    case BoolLit(_) => true
    case Not(x) => Compilable(t, x)
    case And(l, r) => Compilable(t, l) && Compilable(t, r)
    case Or(l, r) => Compilable(t, l) && Compilable(t, r)
    case CompareNum(_, x, y) => NumIn(t, x) && NumIn(t, y)
    case CompareStr(_, x, y) => StrIn(t, x) && StrIn(t, y)
    case InNum(x, nums) => NumIn(t, x) && SortedNums(nums)
    case InStr(x, strs) => StrIn(t, x) && SortedStrs(strs)
    case MissingNum(x) => NumIn(t, x)
    case MissingStr(x) => StrIn(t, x)
    case StartsWith(x, p) => StrIn(t, x) && StrIn(t, p)
  }

  // ---- operators ----------------------------------------------------------------

  /** A number vector; buf is the scratch vector the operator writes. */
  datatype NumNode =
    | ColNum(slot: nat) | NegNum(x: NumNode, buf: nat)
    | ArithVV(op: ArithOp, x: NumNode, y: NumNode, buf: nat)
    | ArithVC(op: ArithOp, x: NumNode, c: Num, buf: nat)
    | ArithCV(op: ArithOp, c: Num, y: NumNode, buf: nat)

  /** A list of numbers as a table that slot indexes: two members never share an index, and NaN fills the gaps. */
  datatype NumSet = NumSet(tbl: seq<Num>, slot: Num -> nat) {
    predicate Has(v: Num) { slot(v) < |tbl| && Same(tbl[slot(v)], v) }
  }

  datatype BoolNode =
    | ConstBool(bit: bool) | LogicNode(or: bool, l: BoolNode, r: BoolNode, wbuf: nat)
    | CmpVC(op: CmpOp, x: NumNode, c: Num) | CmpVV(op: CmpOp, x: NumNode, y: NumNode)
    | IsNaNNode(x: NumNode, want: bool) | InNumNode(x: NumNode, nums: seq<Num>, hash: Option<NumSet>, want: bool)
    | LutNode(col: nat, lut: seq<bool>)
    | StrPair(ne: bool, a: nat, b: nat, ida: seq<nat>, idb: seq<nat>)
    | PrefixPair(a: nat, b: nat, va: seq<string>, vb: seq<string>, want: bool)

  function NumOf(t: Table, x: NumNode, i: nat): Num {
    match x
    case ColNum(slot) => NumberAt(t, slot, i)
    case NegNum(a, _) => Neg(NumOf(t, a, i))
    case ArithVV(op, a, b, _) => Calc(op, NumOf(t, a, i), NumOf(t, b, i))
    case ArithVC(op, a, c, _) => Calc(op, NumOf(t, a, i), c)
    case ArithCV(op, c, b, _) => Calc(op, c, NumOf(t, b, i))
  }

  function CodeAt(t: Table, c: nat, i: nat): nat {
    if c < |t.codes| && i < |t.codes[c]| then t.codes[c][i] else 0
  }

  function Lookup<T>(s: seq<T>, k: nat, none: T): T { if k < |s| then s[k] else none }

  /** The bit the operator sets for row i. */
  predicate BitOf(t: Table, b: BoolNode, i: nat) {
    match b
    case ConstBool(v) => v
    case LogicNode(or, l, r, _) => if or then BitOf(t, l, i) || BitOf(t, r, i) else BitOf(t, l, i) && BitOf(t, r, i)
    case CmpVC(op, x, c) => GoCompare(op, NumOf(t, x, i), c)
    case CmpVV(op, x, y) => GoCompare(op, NumOf(t, x, i), NumOf(t, y, i))
    case IsNaNNode(x, want) => NumOf(t, x, i).NaN? == want
    case InNumNode(x, nums, _, want) => var v := NumOf(t, x, i); !v.NaN? && (v in nums) == want
    case LutNode(col, lut) => Lookup(lut, CodeAt(t, col, i), false)
    case StrPair(ne, a, c, ida, idb) =>
      var x, y := Lookup(ida, CodeAt(t, a, i), 0), Lookup(idb, CodeAt(t, c, i), 0);
      x != 0 && y != 0 && (x == y) != ne
    case PrefixPair(a, c, va, vb, want) =>
      var x, y := Lookup(va, CodeAt(t, a, i), ""), Lookup(vb, CodeAt(t, c, i), "");
      x != "" && y != "" && (y <= x) == want
  }

  // ---- scratch buffers -------------------------------------------------------------

  /** The first vector buffer free after x's, when those before a are taken. */
  function TopF(x: NumNode, a: nat): nat { if x.ColNum? then a else x.buf + 1 }

  /** Buffers are handed out in the order the compiler meets operators, so no two share one. */
  predicate LaidF(x: NumNode, a: nat) {
    match x
    case ColNum(_) => true
    case NegNum(y, buf) => LaidF(y, a) && buf >= TopF(y, a)
    case ArithVV(_, y, z, buf) => LaidF(y, a) && LaidF(z, TopF(y, a)) && buf >= TopF(z, TopF(y, a))
    case ArithVC(_, y, _, buf) => LaidF(y, a) && buf >= TopF(y, a)
    case ArithCV(_, _, y, buf) => LaidF(y, a) && buf >= TopF(y, a)
  }

  lemma {:induction false} TopFGrows(x: NumNode, a: nat)
    requires LaidF(x, a)
    ensures TopF(x, a) >= a
  {
    match x
    case ColNum(_) =>
    case NegNum(y, _) => TopFGrows(y, a);
    case ArithVV(_, y, z, _) => TopFGrows(y, a); TopFGrows(z, TopF(y, a));
    case ArithVC(_, y, _, _) => TopFGrows(y, a);
    case ArithCV(_, _, y, _) => TopFGrows(y, a);
  }

  lemma {:induction false} LaidFLower(x: NumNode, a: nat, b: nat)
    requires LaidF(x, b) && a <= b
    ensures LaidF(x, a) && TopF(x, a) <= TopF(x, b)
  {
    match x
    case ColNum(_) =>
    case NegNum(y, _) => LaidFLower(y, a, b);
    case ArithVV(_, y, z, _) => LaidFLower(y, a, b); LaidFLower(z, TopF(y, a), TopF(y, b));
    case ArithVC(_, y, _, _) => LaidFLower(y, a, b);
    case ArithCV(_, _, y, _) => LaidFLower(y, a, b);
  }

  function TopNums(b: BoolNode, a: nat): nat {
    match b
    case LogicNode(_, l, r, _) => TopNums(r, TopNums(l, a))
    case CmpVC(_, x, _) => TopF(x, a)
    case CmpVV(_, x, y) => TopF(y, TopF(x, a))
    case IsNaNNode(x, _) => TopF(x, a)
    case InNumNode(x, _, _, _) => TopF(x, a)
    case _ => a
  }

  function TopWords(b: BoolNode, a: nat): nat { if b.LogicNode? then b.wbuf + 1 else a }

  predicate Laid(b: BoolNode, f: nat, w: nat) {
    match b
    case LogicNode(_, l, r, wbuf) =>
      && Laid(l, f, w) && Laid(r, TopNums(l, f), TopWords(l, w))
      && wbuf >= TopWords(r, TopWords(l, w))
    case CmpVC(_, x, _) => LaidF(x, f)
    case CmpVV(_, x, y) => LaidF(x, f) && LaidF(y, TopF(x, f))
    case IsNaNNode(x, _) => LaidF(x, f)
    case InNumNode(x, _, _, _) => LaidF(x, f)
    case _ => true
  }

  lemma {:induction false} TopsGrow(b: BoolNode, f: nat, w: nat)
    requires Laid(b, f, w)
    ensures TopNums(b, f) >= f && TopWords(b, w) >= w
  {
    match b
    case LogicNode(_, l, r, _) => TopsGrow(l, f, w); TopsGrow(r, TopNums(l, f), TopWords(l, w));
    case CmpVC(_, x, _) => TopFGrows(x, f);
    case CmpVV(_, x, y) => TopFGrows(x, f); TopFGrows(y, TopF(x, f));
    case IsNaNNode(x, _) => TopFGrows(x, f);
    case InNumNode(x, _, _, _) => TopFGrows(x, f);
    case _ =>
  }

  lemma {:induction false} LaidLower(b: BoolNode, f: nat, w: nat, g: nat, x: nat)
    requires Laid(b, g, x) && f <= g && w <= x
    ensures Laid(b, f, w) && TopNums(b, f) <= TopNums(b, g) && TopWords(b, w) <= TopWords(b, x)
  {
    match b
    case LogicNode(_, l, r, _) =>
      LaidLower(l, f, w, g, x);
      LaidLower(r, TopNums(l, f), TopWords(l, w), TopNums(l, g), TopWords(l, x));
    case CmpVC(_, y, _) => LaidFLower(y, f, g);
    case CmpVV(_, y, z) => LaidFLower(y, f, g); LaidFLower(z, TopF(y, f), TopF(y, g));
    case IsNaNNode(y, _) => LaidFLower(y, f, g);
    case InNumNode(y, _, _, _) => LaidFLower(y, f, g);
    case _ =>
  }

  /** A membership test whose hash agrees with its list. */
  ghost predicate SetsFit(b: BoolNode) {
    match b
    case LogicNode(_, l, r, _) => SetsFit(l) && SetsFit(r)
    case InNumNode(_, nums, hash, _) => SortedNums(nums) && (hash.Some? ==> HashFits(hash.value, nums))
    case _ => true
  }

  ghost predicate HashFits(h: NumSet, nums: seq<Num>) {
    forall v :: h.Has(v) <==> !v.NaN? && v in nums
  }
}
