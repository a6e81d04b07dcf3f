/** Conditions compiled to trees of operators over whole columns, each tree marking the rows with one truth value
(internal/backtest/vector.go). */
module VectorCompiler {
  import opened Bits
  import opened Numbers
  import opened Domain
  import opened Text
  import opened Language
  import opened Columns

  // ---- sorted lists -----------------------------------------------------------

  lemma {:induction false} SortedAt(s: seq<Num>, i: nat, j: nat)
    requires SortedNums(s) && i <= j < |s|
    ensures !s[i].NaN? && !s[j].NaN? && !Less(s[j], s[i])
    decreases |s|, j
  {
    if i > 0 {
      assert s[1..][i - 1] == s[i] && s[1..][j - 1] == s[j];
      SortedAt(s[1..], i - 1, j - 1);
    } else if j > 0 {
      assert s[1..][j - 1] == s[j] && s[1..][0] == s[1];
      SortedAt(s[1..], 0, j - 1);
    }
  }

  /** Binary search in a sorted list; NaN is in no list. */
  method ContainsNum(s: seq<Num>, v: Num) returns (found: bool)
    requires SortedNums(s)
    ensures found == (!v.NaN? && v in s)
  {
    var lo, hi := 0, |s|;
    while lo < hi
      invariant 0 <= lo <= hi <= |s|
      invariant !v.NaN? ==> (forall k :: 0 <= k < lo ==> Less(s[k], v))
      invariant !v.NaN? ==> (forall k :: hi <= k < |s| ==> !Less(s[k], v))
    {
      var mid := (lo + hi) / 2;
      SortedAt(s, mid, mid);
      ghost var lo0, hi0 := lo, hi;
      if Less(s[mid], v) || v.NaN? { lo := mid + 1; } else { hi := mid; }
      if !v.NaN? {
        forall k | lo0 <= k < lo ensures Less(s[k], v) {
          SortedAt(s, k, mid);
          LessThrough(s[k], s[mid], v);
        }
        forall k | hi <= k < hi0 ensures !Less(s[k], v) {
          SortedAt(s, mid, k);
          NotLessThrough(s[k], s[mid], v);
        }
      }
    }
    found := lo < |s| && Same(s[lo], v);
    if !v.NaN? && v in s {
      var k :| 0 <= k < |s| && s[k] == v;
      assert k >= lo;
      SortedAt(s, lo, k);
      LessIsTotal(s[lo], v);
    }
  }

  lemma {:induction false} StrLessIsTotal(a: string, b: string)
    ensures StrLess(a, b) || a == b || StrLess(b, a)
    ensures !(StrLess(a, b) && StrLess(b, a)) && !StrLess(a, a)
  {
    if a != "" {
      StrLessIsTotal(a[1..], a[1..]);
      if b != "" {
        StrLessIsTotal(a[1..], b[1..]);
        assert a == [a[0]] + a[1..] && b == [b[0]] + b[1..];
      }
    }
  }

  lemma {:induction false} StrLessThrough(a: string, b: string, c: string)
    requires !StrLess(b, a) && StrLess(b, c)
    ensures StrLess(a, c)
  {
    if a != "" && b != "" && a[0] == b[0] == c[0] { StrLessThrough(a[1..], b[1..], c[1..]); }
  }

  lemma {:induction false} SortedStrsAt(s: seq<string>, i: nat, j: nat)
    requires SortedStrs(s) && i <= j < |s|
    ensures !StrLess(s[j], s[i])
    decreases j
  {
    StrLessIsTotal(s[j], s[i]);
    if i > 0 {
      SortedStrsAt(s[1..], i - 1, j - 1);
    } else if j > 0 {
      SortedStrsAt(s[1..], 0, j - 1);
      if StrLess(s[j], s[0]) { StrLessThrough(s[1], s[j], s[0]); }
    }
  }

  /** Where v stands, or would stand, in a sorted list, when that is between lo and hi. */
  function Search(s: seq<string>, v: string, lo: nat, hi: nat): nat
    requires lo <= hi <= |s|
    decreases hi - lo
  {
    if lo == hi then lo
    else
      var mid := (lo + hi) / 2;
      if StrLess(s[mid], v) then Search(s, v, mid + 1, hi) else Search(s, v, lo, mid)
  }

  predicate HasStr(s: seq<string>, v: string) {
    var i := Search(s, v, 0, |s|);
    i < |s| && s[i] == v
  }

  lemma {:induction false} SearchFinds(s: seq<string>, v: string, lo: nat, hi: nat, k: nat)
    requires SortedStrs(s) && lo <= hi <= |s| && k < |s| && s[k] == v
    requires lo > 0 ==> StrLess(s[lo - 1], v)
    requires hi < |s| ==> !StrLess(s[hi], v)
    ensures Search(s, v, lo, hi) < |s| && s[Search(s, v, lo, hi)] == v
    decreases hi - lo
  {
    hide SortedStrs, StrLess;
    if lo == hi {
      StrLessIsTotal(v, v);
      if lo > 0 && k <= lo - 1 {
        SortedStrsAt(s, k, lo - 1);
        assert false;
      }
      SortedStrsAt(s, lo, k);
      StrLessIsTotal(s[lo], v);
    } else {
      var mid := (lo + hi) / 2;
      if StrLess(s[mid], v) { SearchFinds(s, v, mid + 1, hi, k); } else { SearchFinds(s, v, lo, mid, k); }
    }
  }

  /** Binary search in a sorted list is membership. */
  lemma HasStrMeans(s: seq<string>)
    requires SortedStrs(s)
    ensures forall v :: HasStr(s, v) <==> v in s
  {
    forall v ensures HasStr(s, v) <==> v in s {
      if v in s {
        var k :| 0 <= k < |s| && s[k] == v;
        SearchFinds(s, v, 0, |s|, k);
      }
    }
  }

  lemma LessThrough(a: Num, b: Num, c: Num)
    requires !a.NaN? && !b.NaN? && !Less(b, a) && Less(b, c)
    ensures Less(a, c)
  {}

  lemma NotLessThrough(a: Num, b: Num, c: Num)
    requires !a.NaN? && !b.NaN? && !c.NaN? && !Less(a, b) && !Less(b, c)
    ensures !Less(a, c)
  {}

  // ---- collision-free hashing -----------------------------------------------------

  /** Lists up to this long are scanned, longer ones hashed. */
  const LINEAR_SET_MAX := 4
  const MAX_BITS := 16
  const TRIES := 64

  /** The multiplicative hash: the slot of a value under a multiplier, and the next multiplier. */
  datatype Hasher = Hasher(slot: (Num, nat, nat) -> nat, next: nat -> nat)

  /** Tries one hash: a table with every value at its index, or false if two values clash. */
  method Place(h: Hasher, nums: seq<Num>, mult: nat, bits: nat) returns (s: NumSet, ok: bool)
    ensures ok ==> HashFits(s, nums)
  {
    var size := Pow2(bits);
    var slot := (v: Num) => h.slot(v, mult, bits);
    var tbl := seq(size, i => NaN);
    for i := 0 to |nums|
      invariant |tbl| == size
      invariant forall k :: 0 <= k < |tbl| && !tbl[k].NaN? ==> slot(tbl[k]) == k && tbl[k] in nums[..i]
      invariant forall j :: 0 <= j < i && !nums[j].NaN? ==> slot(nums[j]) < size && tbl[slot(nums[j])] == nums[j]
    {
      var v := nums[i];
      var at := slot(v);
      if at >= size { return NumSet([], slot), false; }
      assert nums[..i + 1] == nums[..i] + [v];
      if Same(tbl[at], v) {
      } else if tbl[at].NaN? {
        tbl := tbl[at := v];
      } else {
        return NumSet([], slot), false;
      }
    }
    s, ok := NumSet(tbl, slot), true;
    assert nums[..|nums|] == nums;
    forall v ensures s.Has(v) <==> !v.NaN? && v in nums {
      if !v.NaN? && v in nums {
        var j :| 0 <= j < |nums| && nums[j] == v;
        assert tbl[slot(nums[j])] == nums[j];
      }
    }
  }

  /** Searches multipliers and table sizes for one without collisions. */
  method NewNumSet(h: Hasher, nums: seq<Num>) returns (s: Option<NumSet>)
    ensures s.Some? ==> HashFits(s.value, nums)
  {
    hide HashFits;
    var bits := 1;
    while Pow2(bits) < 2 * |nums| && bits <= MAX_BITS
      invariant bits <= MAX_BITS + 1
    {
      bits := bits + 1;
    }
    var mult := 0x5eed;
    while bits <= MAX_BITS {
      for i := 0 to TRIES {
        mult := h.next(mult);
        var set_, ok := Place(h, nums, mult, bits);
        if ok { return Some(set_); }
      }
      bits := bits + 1;
    }
    return None;
  }

  // ---- expressions ------------------------------------------------------------------

  /** A compiled number: a constant or a vector. */
  datatype NumV = KonstN(v: Num) | Vec(n: NumNode)

  ghost predicate NumMeans(t: Table, x: NumV, e: NumExpr) {
    match x
    case KonstN(v) => forall row :: NumVal(e, row) == v
    case Vec(n) => forall i: nat :: i < t.n ==> NumOf(t, n, i) == NumVal(e, RowAt(t, i))
  }

  /** A compiled text: a constant, already lowered if it was, or a column seen through its
  dictionary, lowered or not. */
  datatype StrV = KonstS(s: string) | Col(c: nat, lower: bool)

  ghost predicate StrMeans(u: Unicode, t: Table, x: StrV, e: StrExpr) {
    match x
    case KonstS(s) => forall row :: StrVal(u, e, row) == s
    case Col(c, lower) => c < |t.codes| && forall i: nat :: i < t.n ==>
      StrVal(u, e, RowAt(t, i)) == View(u, TextAt(t, c, i), lower)
  }

  /** What compiling a condition gives: an answer for all rows, or a node that marks some of them. */
  datatype BoolV = KonstB(v: bool) | Bits(n: BoolNode)

  predicate ValueOf(t: Table, x: BoolV, i: nat) {
    match x
    case KonstB(v) => v
    case Bits(n) => BitOf(t, n, i)
  }

  ghost predicate BitMeans(u: Unicode, t: Table, x: BoolV, c: Cond, want: bool, i: nat) {
    ValueOf(t, x, i) == Answers(Value(u, c, RowAt(t, i)), want)
  }

  ghost predicate BoolMeans(u: Unicode, t: Table, x: BoolV, c: Cond, want: bool) {
    forall i: nat :: i < t.n ==> BitMeans(u, t, x, c, want, i)
  }

  class Compiler {
    const u: Unicode
    const h: Hasher
    const t: Table
    var nf: nat // vector scratch buffers handed out
    var nw: nat // bitmap scratch buffers handed out

    constructor (u: Unicode, h: Hasher, t: Table)
      ensures nf == nw == 0 && this.u == u && this.t == t
    {
      this.u, this.h, this.t, nf, nw := u, h, t, 0, 0;
    }

    method NumC(e: NumExpr) returns (x: NumV)
      requires Built(t) && NumIn(t, e)
      modifies this`nf
      ensures NumMeans(t, x, e)
      ensures nf >= old(nf) && (x.Vec? ==> LaidF(x.n, old(nf)) && TopF(x.n, old(nf)) <= nf)
    {
      match e
      case NumAttr(slot) => x := Vec(ColNum(slot));
      case NumLit(v) => x := KonstN(v);
      case NegOf(a) =>
        var y := NumC(a);
        if y.KonstN? {
          x := KonstN(Neg(y.v));
        } else {
          x := Vec(NegNum(y.n, nf));
          nf := nf + 1;
        }
      case Arith(op, a, b) =>
        var y := NumC(a);
        ghost var mid := nf;
        var z := NumC(b);
        if z.Vec? { LaidFLower(z.n, if y.Vec? then TopF(y.n, old(nf)) else old(nf), mid); }
        if y.KonstN? && z.KonstN? {
          x := KonstN(Calc(op, y.v, z.v));
          return;
        }
        if z.KonstN? {
          x := Vec(ArithVC(op, y.n, z.v, nf));
        } else if y.KonstN? {
          x := Vec(ArithCV(op, y.v, z.n, nf));
        } else {
          x := Vec(ArithVV(op, y.n, z.n, nf));
        }
        nf := nf + 1;
    }

    method StrC(e: StrExpr) returns (x: StrV)
      requires Built(t) && StrIn(t, e) && Sane(u)
      ensures StrMeans(u, t, x, e)
    {
      match e
      case StrAttr(slot) => x := Col(slot, false);
      case StrLit(s) => x := KonstS(s);
      case Lower(a) =>
        var y := StrC(a);
        if y.KonstS? {
          x := KonstS(ToLower(u, y.s));
        } else {
          x := Col(y.c, true);
          forall i: nat | i < t.n ensures StrVal(u, e, RowAt(t, i)) == ToLower(u, TextAt(t, y.c, i)) {
            ToLowerIdempotent(u, TextAt(t, y.c, i));
          }
        }
    }

    /** A node that asks pred once per dictionary entry and marks the rows whose text it accepts, never an empty one. */
    method Lut(x: StrV, ghost e: StrExpr, pred: string -> bool) returns (b: BoolNode)
      requires Built(t) && x.Col? && StrMeans(u, t, x, e) && Sane(u)
      ensures b.LutNode?
      ensures forall i: nat :: i < t.n ==>
                BitOf(t, b, i) == (StrVal(u, e, RowAt(t, i)) != "" && pred(StrVal(u, e, RowAt(t, i))))
    {
      hide Sane, ToLower, StrVal, RowAt, TextAt;
      var view := ViewOf(x);
      var tbl := [false];
      for code := 1 to |view|
        invariant |tbl| == code && !tbl[0]
        invariant forall k :: 0 < k < code ==> tbl[k] == pred(view[k])
      {
        tbl := tbl + [pred(view[code])];
      }
      b := LutNode(x.c, tbl);
      forall i: nat | i < t.n
        ensures BitOf(t, b, i) == (StrVal(u, e, RowAt(t, i)) != "" && pred(StrVal(u, e, RowAt(t, i))))
      {
        ViewAt(x, view, e, i);
      }
    }

    /** The values a column expression takes, by code: the dictionary, lowered or not. */
    method ViewOf(x: StrV) returns (view: seq<string>)
      requires Built(t) && x.Col? && x.c < |t.codes| && Sane(u)
      ensures |view| == |t.dict[x.c]| && |view| > 0
      ensures forall k :: 0 <= k < |view| ==> view[k] == View(u, t.dict[x.c][k], x.lower)
    {
      assert TextFits(t, x.c);
      if !x.lower { return t.dict[x.c]; }
      view := [];
      for k := 0 to |t.dict[x.c]|
        invariant |view| == k && forall j :: 0 <= j < k ==> view[j] == ToLower(u, t.dict[x.c][j])
      {
        view := view + [ToLower(u, t.dict[x.c][k])];
      }
    }

    /** Row i's text is its code's entry in the view, and is missing exactly when the code is 0. */
    lemma ViewAt(x: StrV, view: seq<string>, e: StrExpr, i: nat)
      requires Built(t) && x.Col? && StrMeans(u, t, x, e) && Sane(u) && i < t.n && |view| == |t.dict[x.c]|
      requires forall k :: 0 <= k < |view| ==> view[k] == View(u, t.dict[x.c][k], x.lower)
      ensures CodeAt(t, x.c, i) < |view| && view[CodeAt(t, x.c, i)] == StrVal(u, e, RowAt(t, i))
      ensures CodeAt(t, x.c, i) == 0 <==> StrVal(u, e, RowAt(t, i)) == ""
    {
      assert TextFits(t, x.c);
      ToLowerIdempotent(u, t.dict[x.c][CodeAt(t, x.c, i)]);
      hide Sane, ToLower;
    }

    /** The ghost facts every condition method keeps: its buffers come after those handed out before. */
    ghost predicate Numbered(b: BoolV, f: nat, w: nat)
      reads this
    {
      b.Bits? ==> && Laid(b.n, f, w) && TopNums(b.n, f) <= nf && TopWords(b.n, w) <= nw && SetsFit(b.n)
    }

    method CompareNumC(op0: CmpOp, x0: NumV, y0: NumV, ghost d: NumExpr, ghost e: NumExpr, ghost f: nat, ghost g: nat)
        returns (b: BoolV)
      requires NumMeans(t, x0, d) && NumMeans(t, y0, e)
      requires f <= g <= nf && (x0.Vec? ==> LaidF(x0.n, f) && TopF(x0.n, f) <= g)
      requires (y0.Vec? ==> LaidF(y0.n, g) && TopF(y0.n, g) <= nf)
      ensures Numbered(b, f, nw)
      ensures forall i: nat :: i < t.n ==>
                ValueOf(t, b, i)
                == GoCompare(op0, NumVal(d, RowAt(t, i)), NumVal(e, RowAt(t, i)))
    {
      hide RowAt, NumVal;
      forall i: nat | i < t.n ensures
        GoCompare(Flip(op0), NumVal(e, RowAt(t, i)), NumVal(d, RowAt(t, i))) ==
          GoCompare(op0, NumVal(d, RowAt(t, i)), NumVal(e, RowAt(t, i)))
      {
        FlipMeans(op0, NumVal(d, RowAt(t, i)), NumVal(e, RowAt(t, i)));
      }
      if x0.KonstN? && y0.KonstN? { return KonstB(GoCompare(op0, x0.v, y0.v)); }
      var x, y, op := x0, y0, op0;
      if x0.KonstN? { x, y, op := y0, x0, Flip(op0); }
      if y.KonstN? {
        if x0.KonstN? { LaidFLower(x.n, f, g); }
        if y.v.NaN? { return KonstB(false); }
        return Bits(CmpVC(op, x.n, y.v));
      }
      LaidFLower(y.n, TopF(x.n, f), g);
      return Bits(CmpVV(op, x.n, y.n));
    }

    /** Marks the rows whose number is there and is in the list, or is not, as wanted. */
    method InNumC(x: NumV, nums: seq<Num>, want: bool, ghost e: NumExpr, ghost f: nat) returns (b: BoolV)
      requires NumMeans(t, x, e) && SortedNums(nums) && (x.Vec? ==> LaidF(x.n, f) && TopF(x.n, f) <= nf)
      ensures Numbered(b, f, nw)
      ensures forall i: nat :: i < t.n ==>
                ValueOf(t, b, i)
                == (!NumVal(e, RowAt(t, i)).NaN? && (NumVal(e, RowAt(t, i)) in nums) == want)
    {
      hide SortedNums, RowAt, NumVal, HashFits;
      if x.KonstN? {
        var found := ContainsNum(nums, x.v);
        return KonstB(!x.v.NaN? && found == want);
      }
      var hash := None;
      if |nums| > LINEAR_SET_MAX { hash := NewNumSet(h, nums); }
      return Bits(InNumNode(x.n, nums, hash, want));
    }

    /** Numbers the texts of a view, going on from seen: two texts are equal just when their numbers are, and 0 is
    the empty text's. */
    method Number(view: seq<string>, ids: map<string, nat>) returns (out: seq<nat>, more: map<string, nat>)
      requires Numbering(ids)
      ensures Numbering(more) && ids.Keys <= more.Keys && forall v :: v in ids ==> more[v] == ids[v]
      ensures |out| == |view| && forall k :: 0 <= k < |view| ==> view[k] in more && more[view[k]] == out[k]
    {
      out, more := [], ids;
      for code := 0 to |view|
        invariant Numbering(more) && ids.Keys <= more.Keys && forall v :: v in ids ==> more[v] == ids[v]
        invariant |out| == code && forall k :: 0 <= k < code ==> view[k] in more && more[view[k]] == out[k]
      {
        var v := view[code];
        if v !in more {
          NewNumber(more, v);
          more := more[v := |more|];
        }
        out := out + [more[v]];
      }
    }

    /** = or != on text with both sides present. */
    method CompareStrC(ne: bool, x0: StrV, y0: StrV, ghost d: StrExpr, ghost e: StrExpr, ghost f: nat)
      returns (b: BoolV)
      requires Built(t) && Sane(u) && StrMeans(u, t, x0, d) && StrMeans(u, t, y0, e) && f <= nf
      ensures Numbered(b, f, nw)
      ensures forall i: nat :: i < t.n ==>
                var p, q := StrVal(u, d, RowAt(t, i)), StrVal(u, e, RowAt(t, i));
                ValueOf(t, b, i) == (p != "" && q != "" && (p == q) != ne)
    {
      hide Sane, ToLower, StrVal, RowAt, TextAt, Built, Numbering;
      if x0.KonstS? && y0.KonstS? { return KonstB(x0.s != "" && y0.s != "" && (x0.s == y0.s) != ne); }
      if x0.KonstS? || y0.KonstS? {
        var x, c := if x0.KonstS? then y0 else x0, if x0.KonstS? then x0.s else y0.s;
        ghost var xe := if x0.KonstS? then e else d;
        if c == "" { return KonstB(false); }
        var n := Lut(x, xe, v => (v == c) != ne);
        return Bits(n);
      }
      var n := PairC(ne, x0, y0, d, e);
      return Bits(n);
    }

    method PairC(ne: bool, x: StrV, y: StrV, ghost d: StrExpr, ghost e: StrExpr) returns (b: BoolNode)
      requires Built(t) && Sane(u) && x.Col? && y.Col? && StrMeans(u, t, x, d) && StrMeans(u, t, y, e)
      ensures b.StrPair?
      ensures forall i: nat :: i < t.n ==>
                var p, q := StrVal(u, d, RowAt(t, i)), StrVal(u, e, RowAt(t, i));
                BitOf(t, b, i) == (p != "" && q != "" && (p == q) != ne)
    {
      hide Sane, ToLower, StrVal, RowAt, TextAt, Built, Numbering;
      var va := ViewOf(x);
      var vb := ViewOf(y);
      FirstNumber();
      var ida, ids := Number(va, map["" := 0]);
      var idb, all := Number(vb, ids);
      b := StrPair(ne, x.c, y.c, ida, idb);
      forall i: nat | i < t.n
        ensures var p, q := StrVal(u, d, RowAt(t, i)), StrVal(u, e, RowAt(t, i));
                BitOf(t, b, i) == (p != "" && q != "" && (p == q) != ne)
      {
        ViewAt(x, va, d, i);
        ViewAt(y, vb, e, i);
        SameNumber(all, StrVal(u, d, RowAt(t, i)), StrVal(u, e, RowAt(t, i)));
      }
    }

    /** Marks the rows whose text is there and is in the list, or is not, as wanted. */
    method InStrC(x: StrV, strs: seq<string>, want: bool, ghost e: StrExpr, ghost f: nat) returns (b: BoolV)
      requires Built(t) && Sane(u) && StrMeans(u, t, x, e) && SortedStrs(strs) && f <= nf
      ensures Numbered(b, f, nw)
      ensures forall i: nat :: i < t.n ==>
                ValueOf(t, b, i) == (StrVal(u, e, RowAt(t, i)) != "" && (StrVal(u, e, RowAt(t, i)) in strs) == want)
    {
      hide Sane, ToLower, StrVal, RowAt, TextAt, Built, SortedStrs, HasStr;
      HasStrMeans(strs);
      if x.KonstS? { return KonstB(x.s != "" && HasStr(strs, x.s) == want); }
      var n := Lut(x, e, v => HasStr(strs, v) == want);
      return Bits(n);
    }

    /** Marks the rows where a number is absent, or those where it is not; every row is marked by one of the two. */
    method MissingNumC(x: NumV, want: bool, ghost e: NumExpr, ghost f: nat) returns (b: BoolV)
      requires NumMeans(t, x, e) && (x.Vec? ==> LaidF(x.n, f) && TopF(x.n, f) <= nf)
      ensures Numbered(b, f, nw)
      ensures forall i: nat :: i < t.n ==> ValueOf(t, b, i) == (NumVal(e, RowAt(t, i)).NaN? == want)
    {
      hide RowAt, NumVal;
      if x.KonstN? { return KonstB(x.v.NaN? == want); }
      return Bits(IsNaNNode(x.n, want));
    }

    method MissingStrC(x: StrV, want: bool, ghost e: StrExpr, ghost f: nat) returns (b: BoolV)
      requires Built(t) && Sane(u) && StrMeans(u, t, x, e) && f <= nf
      ensures Numbered(b, f, nw)
      ensures forall i: nat :: i < t.n ==> ValueOf(t, b, i) == ((StrVal(u, e, RowAt(t, i)) == "") == want)
    {
      hide Sane, ToLower, StrVal, RowAt, TextAt;
      if x.KonstS? { return KonstB((x.s == "") == want); }
      var tbl := [];
      var view := ViewOf(x);
      for code := 0 to |t.dict[x.c]|
        invariant |tbl| == code && forall k :: 0 <= k < code ==> tbl[k] == ((k == 0) == want)
      {
        tbl := tbl + [(code == 0) == want];
      }
      b := Bits(LutNode(x.c, tbl));
      forall i: nat | i < t.n ensures ValueOf(t, b, i) == ((StrVal(u, e, RowAt(t, i)) == "") == want) {
        ViewAt(x, view, e, i);
      }
    }

    /** Marks the rows where neither text is missing and the one begins with the other, or does not, as wanted. */
    method StartsWithC(x: StrV, p: StrV, want: bool, ghost d: StrExpr, ghost e: StrExpr, ghost f: nat)
      returns (b: BoolV)
      requires Built(t) && Sane(u) && StrMeans(u, t, x, d) && StrMeans(u, t, p, e) && f <= nf
      ensures Numbered(b, f, nw)
      ensures forall i: nat :: i < t.n ==>
                var s, q := StrVal(u, d, RowAt(t, i)), StrVal(u, e, RowAt(t, i));
                ValueOf(t, b, i) == (s != "" && q != "" && (q <= s) == want)
    {
      hide Sane, ToLower, StrVal, RowAt, TextAt, Built;
      if x.KonstS? && p.KonstS? { return KonstB(x.s != "" && p.s != "" && (p.s <= x.s) == want); }
      if p.KonstS? {
        var c := p.s;
        if c == "" { return KonstB(false); }
        var n := Lut(x, d, v => (c <= v) == want);
        return Bits(n);
      }
      if x.KonstS? {
        var c := x.s;
        if c == "" { return KonstB(false); }
        var n := Lut(p, e, v => (v <= c) == want);
        return Bits(n);
      }
      var vx := ViewOf(x);
      var vp := ViewOf(p);
      b := Bits(PrefixPair(x.c, p.c, vx, vp, want));
      forall i: nat | i < t.n
        ensures var s, q := StrVal(u, d, RowAt(t, i)), StrVal(u, e, RowAt(t, i));
                ValueOf(t, b, i) == (s != "" && q != "" && (q <= s) == want)
      {
        ViewAt(x, vx, d, i);
        ViewAt(p, vp, e, i);
      }
    }

    /** Joins two compiled conditions, folding away a constant side. */
    method Logical(or: bool, x: BoolV, y: BoolV, ghost f: nat, ghost w: nat, ghost g: nat, ghost v: nat)
      returns (b: BoolV)
      requires f <= g <= nf && w <= v <= nw && Numbered(y, g, v)
      requires x.Bits? ==> Laid(x.n, f, w) && TopNums(x.n, f) <= g && TopWords(x.n, w) <= v && SetsFit(x.n)
      modifies this`nw
      ensures nw >= old(nw) && Numbered(b, f, w)
      ensures forall i: nat :: i < t.n ==>
                ValueOf(t, b, i) == (if or then ValueOf(t, x, i) || ValueOf(t, y, i)
                  else ValueOf(t, x, i) && ValueOf(t, y, i))
    {
      if y.Bits? { LaidLower(y.n, f, w, g, v); }
      if x.Bits? { TopsGrow(x.n, f, w); }
      if x.KonstB? {
        if x.v == or { return KonstB(or); }
        return y;
      }
      if y.KonstB? {
        if y.v == or { return KonstB(or); }
        return x;
      }
      b := Bits(LogicNode(or, x.n, y.n, nw));
      LaidLower(y.n, TopNums(x.n, f), TopWords(x.n, w), g, v);
      nw := nw + 1;
    }

    /** The node, or the constant, that marks the rows where the condition has the wanted truth value. */
    method CondC(c: Cond, want: bool) returns (b: BoolV)
      requires Built(t) && Sane(u) && Compilable(t, c)
      modifies this
      ensures nf >= old(nf) && nw >= old(nw) && Numbered(b, old(nf), old(nw))
      ensures BoolMeans(u, t, b, c, want)
      decreases c, 1
    {
      hide Built, Sane, StrMeans, NumMeans, RowAt, NumVal, StrVal, SortedNums, SortedStrs, Holds, ToLower;
      match c
      case BoolLit(v) => b := KonstB(v == want);
      case Not(x) =>
        b := CondC(x, !want);
        forall i: nat | i < t.n ensures BitMeans(u, t, b, c, want, i) { assert BitMeans(u, t, b, x, !want, i); }
      case And(l, r) =>
        b := Connect(!want, c, want);
        forall i: nat | i < t.n ensures BitMeans(u, t, b, c, want, i) {}
      case Or(l, r) =>
        b := Connect(want, c, want);
        forall i: nat | i < t.n ensures BitMeans(u, t, b, c, want, i) {}
      case CompareNum(op, x, y) =>
        var p := NumC(x);
        ghost var g := nf;
        var q := NumC(y);
        b := CompareNumC(if want then op else Negate(op), p, q, x, y, old(nf), g);
        forall i: nat | i < t.n
          ensures BitMeans(u, t, b, c, want, i) {
            ComparesKleene(op, NumVal(x, RowAt(t, i)), NumVal(y, RowAt(t, i)), want);
          }
      case CompareStr(ne, s, v) =>
        var p := StrC(s);
        var q := StrC(v);
        b := CompareStrC(if want then ne else !ne, p, q, s, v, nf);
      case InNum(x, nums) =>
        var p := NumC(x);
        b := InNumC(p, nums, want, x, old(nf));
      case InStr(s, strs) =>
        var p := StrC(s);
        b := InStrC(p, strs, want, s, nf);
      case MissingNum(x) =>
        var p := NumC(x);
        b := MissingNumC(p, want, x, old(nf));
      case MissingStr(s) =>
        var p := StrC(s);
        b := MissingStrC(p, want, s, nf);
      case StartsWith(s, p) =>
        var x := StrC(s);
        var q := StrC(p);
        b := StartsWithC(x, q, want, s, p, nf);
    }

    /** De Morgan for masks: when FALSE is wanted, conjunction and disjunction change places. */
    method Connect(or: bool, c: Cond, want: bool) returns (b: BoolV)
      requires Built(t) && Sane(u) && (c.And? || c.Or?) && Compilable(t, c)
      modifies this
      ensures nf >= old(nf) && nw >= old(nw) && Numbered(b, old(nf), old(nw))
      ensures forall i: nat :: i < t.n ==>
                ValueOf(t, b, i) == (var p, q := Answers(Value(u, c.l, RowAt(t, i)), want),
                  Answers(Value(u, c.r, RowAt(t, i)), want);
                                     if or then p || q else p && q)
      decreases c, 0
    {
      hide Built, Sane, RowAt, Value;
      var x := CondC(c.l, want);
      ghost var g, v := nf, nw;
      var y := CondC(c.r, want);
      b := Logical(or, x, y, old(nf), old(nw), g, v);
      forall i: nat | i < t.n
        ensures ValueOf(t, b, i) ==
                  (var p, q := Answers(Value(u, c.l, RowAt(t, i)), want), Answers(Value(u, c.r, RowAt(t, i)), want);
                                     if or then p || q else p && q)
      {
        assert BitMeans(u, t, x, c.l, want, i) && BitMeans(u, t, y, c.r, want, i);
      }
    }
  }

  lemma ComparesKleene(op: CmpOp, a: Num, b: Num, want: bool)
    ensures GoCompare(if want then op else Negate(op), a, b)
         == Answers(if a.NaN? || b.NaN? then Unknown else Known(Holds(op, a, b)), want)
  {
    GoCompareMeans(if want then op else Negate(op), a, b);
    if !a.NaN? && !b.NaN? { NegateMeans(op, a, b); }
    hide Holds, Less;
  }

  /** A condition compiled against one table, and the scratch buffers evaluating it takes. */
  datatype Program = Program(t: Table, root: BoolNode, nf: nat, nw: nat)

  ghost predicate ProgramFits(p: Program) {
    Laid(p.root, 0, 0) && TopNums(p.root, 0) <= p.nf && TopWords(p.root, 0) <= p.nw && SetsFit(p.root)
  }

  /** Compiles a checked condition; one the table cannot serve is an error. Each row's bit is set
  exactly when the condition is TRUE on the row. */
  method CompileVector(u: Unicode, h: Hasher, c: Cond, t: Table) returns (p: Option<Program>)
    requires Built(t) && Sane(u)
    ensures p.None? <==> !Compilable(t, c)
    ensures p.Some? ==> p.value.t == t && ProgramFits(p.value)
    ensures p.Some? ==> forall i: nat :: i < t.n ==>
              BitOf(t, p.value.root, i) == (Value(u, c, RowAt(t, i)) == True)
  {
    hide Built, Sane, RowAt, Value;
    if !Compilable(t, c) { return None; }
    var k := new Compiler(u, h, t);
    var b := k.CondC(c, true);
    p := Some(Program(t, if b.KonstB? then ConstBool(b.v) else b.n, k.nf, k.nw));
    forall i: nat | i < t.n ensures BitOf(t, p.value.root, i) == (Value(u, c, RowAt(t, i)) == True) {
      assert BitMeans(u, t, b, c, true, i);
    }
  }

  /** Different text has different numbers, and missing is number 0. */
  ghost predicate Numbering(ids: map<string, nat>) {
    && "" in ids && ids[""] == 0
    && (forall v :: v in ids ==> ids[v] < |ids|)
    && (forall v, x :: v in ids && x in ids && ids[v] == ids[x] ==> v == x)
  }

  lemma FirstNumber()
    ensures Numbering(map["" := 0])
  {}

  lemma NewNumber(ids: map<string, nat>, v: string)
    requires Numbering(ids) && v !in ids
    ensures Numbering(ids[v := |ids|])
  {
    var more := ids[v := |ids|];
    assert more.Keys == ids.Keys + {v} && |more.Keys| == |ids.Keys| + 1;
    assert |more| == |more.Keys| && |ids| == |ids.Keys|;
  }

  lemma SameNumber(ids: map<string, nat>, v: string, x: string)
    requires Numbering(ids) && v in ids && x in ids
    ensures ids[v] == ids[x] <==> v == x
    ensures ids[v] == 0 <==> v == ""
  {}
}
