/** Running column operators over chunks of a table: words of 64 rows, scratch buffers that never alias, and evaluation
cut short where one side settles it (internal/backtest/ops.go). */
module VectorEval {
  import opened Numbers
  import opened Domain
  import opened Language
  import opened Columns
  import opened VectorCompiler

  const CHUNK := 4096
  const WORD := 64

  /** Sixty-four rows, row j at index j. */
  type Word = w: seq<bool> | |w| == WORD witness seq(WORD, i => false)

  const ZEROS: Word := seq(WORD, i => false)

  function Words(n: nat): nat { (n + 63) / WORD }

  function AndW(a: Word, b: Word): Word { seq(WORD, j requires 0 <= j < WORD => a[j] && b[j]) }
  function OrW(a: Word, b: Word): Word { seq(WORD, j requires 0 <= j < WORD => a[j] || b[j]) }
  function AndNotW(a: Word, b: Word): Word { seq(WORD, j requires 0 <= j < WORD => a[j] && !b[j]) }

  /** Scratch vectors of one worker. */
  datatype Scratch = Scratch(f: seq<array<Num>>, w: seq<array<Word>>)

  ghost predicate Separate(s: Scratch) {
    && (forall i :: 0 <= i < |s.f| ==> s.f[i].Length == CHUNK)
    && (forall i :: 0 <= i < |s.w| ==> s.w[i].Length == CHUNK / WORD)
    && (forall i, j :: 0 <= i < |s.f| && 0 <= j < |s.f| && s.f[i] == s.f[j] ==> i == j)
    && (forall i, j :: 0 <= i < |s.w| && 0 <= j < |s.w| && s.w[i] == s.w[j] ==> i == j)
  }

  ghost function FBufs(s: Scratch, a: nat, b: nat): set<object> { set k | a <= k < b && k < |s.f| :: s.f[k] }
  ghost function WBufs(s: Scratch, a: nat, b: nat): set<object> { set k | a <= k < b && k < |s.w| :: s.w[k] }

  // ---- numbers ------------------------------------------------------------------

  /** Where a number vector is: a slice of a column, with no copy, or a scratch buffer. */
  datatype Source = Column(slot: nat) | Buffer(k: nat)

  function Slice(t: Table, s: Scratch, src: Source, lo: nat, n: nat): seq<Num>
    requires n <= CHUNK && (src.Buffer? ==> src.k < |s.f| && s.f[src.k].Length == CHUNK)
    reads if src.Buffer? && src.k < |s.f| then {s.f[src.k]} else {}
  {
    match src
    case Column(slot) => seq(n, i requires 0 <= i => NumberAt(t, slot, lo + i))
    case Buffer(k) => s.f[k][..n]
  }

  function NumsOf(t: Table, x: NumNode, lo: nat, n: nat): seq<Num> {
    seq(n, i requires 0 <= i => NumOf(t, x, lo + i))
  }

  /** Writes one value per row of the chunk into a buffer. */
  method Write(s: Scratch, buf: nat, n: nat, v: nat -> Num, ghost want: seq<Num>)
    requires Separate(s) && buf < |s.f| && n <= CHUNK && |want| == n && forall i :: 0 <= i < n ==> want[i] == v(i)
    modifies s.f[buf]
    ensures s.f[buf][..n] == want
  {
    var out := s.f[buf];
    for i := 0 to n
      invariant out[..i] == want[..i]
    {
      out[i] := v(i);
    }
  }

  lemma NegEach(t: Table, x: NumNode, lo: nat, n: nat, ys: seq<Num>)
    requires x.NegNum? && ys == NumsOf(t, x.x, lo, n)
    ensures |NumsOf(t, x, lo, n)| == |ys| == n && forall i :: 0 <= i < n ==> NumsOf(t, x, lo, n)[i] == Neg(ys[i])
  {
    hide Neg;
    forall i: nat | i < n ensures NumsOf(t, x, lo, n)[i] == Neg(ys[i]) {
      assert NumsOf(t, x, lo, n)[i] == NumOf(t, x, lo + i) && ys[i] == NumOf(t, x.x, lo + i);
    }
  }

  lemma CalcEach(t: Table, x: NumNode, lo: nat, n: nat, ys: seq<Num>, zs: seq<Num>)
    requires x.ArithVV? ==> ys == NumsOf(t, x.x, lo, n) && zs == NumsOf(t, x.y, lo, n)
    requires x.ArithVC? ==> ys == NumsOf(t, x.x, lo, n)
    requires x.ArithCV? ==> zs == NumsOf(t, x.y, lo, n)
    ensures |NumsOf(t, x, lo, n)| == n && (x.ArithVV? || x.ArithVC? ==> |ys| == n)
    ensures (x.ArithVV? || x.ArithCV? ==> |zs| == n)
    ensures x.ArithVV? ==> forall i :: 0 <= i < n ==> NumsOf(t, x, lo, n)[i] == Calc(x.op, ys[i], zs[i])
    ensures x.ArithVC? ==> forall i :: 0 <= i < n ==> NumsOf(t, x, lo, n)[i] == Calc(x.op, ys[i], x.c)
    ensures x.ArithCV? ==> forall i :: 0 <= i < n ==> NumsOf(t, x, lo, n)[i] == Calc(x.op, x.c, zs[i])
  {
    hide Calc;
    forall i: nat | i < n ensures NumsOf(t, x, lo, n)[i] == NumOf(t, x, lo + i) {}
    if x.ArithVV? || x.ArithVC? { forall i: nat | i < n ensures ys[i] == NumOf(t, x.x, lo + i) {} }
    if x.ArithVV? || x.ArithCV? { forall i: nat | i < n ensures zs[i] == NumOf(t, x.y, lo + i) {} }
  }

  /** Evaluates a number vector; only the node's own buffers are written. */
  method EvalNum(t: Table, x: NumNode, lo: nat, n: nat, s: Scratch, ghost a: nat) returns (src: Source)
    requires Separate(s) && LaidF(x, a) && TopF(x, a) <= |s.f| && n <= CHUNK
    modifies FBufs(s, a, TopF(x, a))
    ensures src.Buffer? ==> a <= src.k < TopF(x, a)
    ensures Slice(t, s, src, lo, n) == NumsOf(t, x, lo, n)
    decreases x, 1
  {
    hide NumsOf;
    match x
    case ColNum(slot) =>
      src := Column(slot);
      ColumnSlice(t, x, lo, n);
    case ArithVV(_, _, _, _) => src := EvalTwo(t, x, lo, n, s, a);
    case ArithCV(_, _, _, _) => src := EvalConstLeft(t, x, lo, n, s, a);
    case _ => src := EvalOne(t, x, lo, n, s, a);
  }

  method EvalTwo(t: Table, x: NumNode, lo: nat, n: nat, s: Scratch, ghost a: nat) returns (src: Source)
    requires Separate(s) && LaidF(x, a) && TopF(x, a) <= |s.f| && n <= CHUNK && x.ArithVV?
    modifies FBufs(s, a, TopF(x, a))
    ensures src == Buffer(x.buf) && a <= x.buf && Slice(t, s, src, lo, n) == NumsOf(t, x, lo, n)
    decreases x, 0
  {
    hide NumsOf, Calc;
    TopFGrows(x.x, a);
    TopFGrows(x.y, TopF(x.x, a));
    var sy := EvalNum(t, x.x, lo, n, s, a);
    var sz := EvalNum(t, x.y, lo, n, s, TopF(x.x, a));
    var ys, zs, op := Slice(t, s, sy, lo, n), Slice(t, s, sz, lo, n), x.op;
    CalcEach(t, x, lo, n, ys, zs);
    Write(s, x.buf, n, (i: nat) => if i < |ys| && i < |zs| then Calc(op, ys[i], zs[i]) else NaN, NumsOf(t, x, lo, n));
    src := Buffer(x.buf);
  }

  method EvalConstLeft(t: Table, x: NumNode, lo: nat, n: nat, s: Scratch, ghost a: nat) returns (src: Source)
    requires Separate(s) && LaidF(x, a) && TopF(x, a) <= |s.f| && n <= CHUNK && x.ArithCV?
    modifies FBufs(s, a, TopF(x, a))
    ensures src == Buffer(x.buf) && a <= x.buf && Slice(t, s, src, lo, n) == NumsOf(t, x, lo, n)
    decreases x, 0
  {
    hide NumsOf, Calc;
    TopFGrows(x.y, a);
    var sz := EvalNum(t, x.y, lo, n, s, a);
    var zs, op, c := Slice(t, s, sz, lo, n), x.op, x.c;
    CalcEach(t, x, lo, n, [], zs);
    Write(s, x.buf, n, (i: nat) => if i < |zs| then Calc(op, c, zs[i]) else NaN, NumsOf(t, x, lo, n));
    src := Buffer(x.buf);
  }

  /** Arithmetic on one vector in place: its negation, or an operation with a constant right side. */
  method EvalOne(t: Table, x: NumNode, lo: nat, n: nat, s: Scratch, ghost a: nat) returns (src: Source)
    requires Separate(s) && LaidF(x, a) && TopF(x, a) <= |s.f| && n <= CHUNK && (x.NegNum? || x.ArithVC?)
    modifies FBufs(s, a, TopF(x, a))
    ensures src == Buffer(x.buf) && a <= x.buf && Slice(t, s, src, lo, n) == NumsOf(t, x, lo, n)
    decreases x, 0
  {
    hide NumsOf, Calc, Neg;
    TopFGrows(x.x, a);
    var sy := EvalNum(t, x.x, lo, n, s, a);
    var ys := Slice(t, s, sy, lo, n);
    if x.NegNum? {
      NegEach(t, x, lo, n, ys);
      Write(s, x.buf, n, (i: nat) => if i < |ys| then Neg(ys[i]) else NaN, NumsOf(t, x, lo, n));
    } else {
      var op, c := x.op, x.c;
      CalcEach(t, x, lo, n, ys, []);
      Write(s, x.buf, n, (i: nat) => if i < |ys| then Calc(op, ys[i], c) else NaN, NumsOf(t, x, lo, n));
    }
    src := Buffer(x.buf);
  }

  lemma ColumnSlice(t: Table, x: NumNode, lo: nat, n: nat)
    requires x.ColNum?
    ensures seq(n, i requires 0 <= i => NumberAt(t, x.slot, lo + i)) == NumsOf(t, x, lo, n)
  {
    var c := seq(n, i requires 0 <= i => NumberAt(t, x.slot, lo + i));
    forall i: nat | i < n ensures c[i] == NumsOf(t, x, lo, n)[i] {
      assert NumsOf(t, x, lo, n)[i] == NumOf(t, x, lo + i);
    }
  }

  // ---- conditions: whole chunks ------------------------------------------------------

  /** The words of one chunk. */
  function Region(out: array<Word>, off: nat, n: nat): seq<Word>
    requires off + Words(n) <= out.Length
    reads out
  {
    out[off..off + Words(n)]
  }

  /** Bit j of word k answers p for row 64 * k + j of the chunk, and the bits past the chunk are zero. */
  ghost predicate Filled(ws: seq<Word>, n: nat, p: int -> bool) {
    forall k: nat, j: nat :: k < |ws| && j < WORD ==> ws[k][j] == (WORD * k + j < n && p(WORD * k + j))
  }

  ghost predicate Shows(t: Table, b: BoolNode, lo: nat, n: nat, ws: seq<Word>) {
    && |ws| == Words(n)
    && forall k: nat, j: nat :: k < |ws| && j < WORD ==>
         ws[k][j] == (WORD * k + j < n && BitOf(t, b, lo + WORD * k + j))
  }

  lemma FilledShows(t: Table, b: BoolNode, lo: nat, n: nat, ws: seq<Word>, p: int -> bool)
    requires |ws| == Words(n) && Filled(ws, n, p) && forall i: nat :: i < n ==> p(i) == BitOf(t, b, lo + i)
    ensures Shows(t, b, lo, n, ws)
  {
    forall k: nat, j: nat | k < |ws| && j < WORD
      ensures ws[k][j] == (WORD * k + j < n && BitOf(t, b, lo + WORD * k + j))
    {
      if WORD * k + j < n { assert p(WORD * k + j) == BitOf(t, b, lo + (WORD * k + j)); }
    }
  }

  /** One word: bit j answers p for row from + j, where there is one. */
  method WordOf(from: nat, n: nat, p: int -> bool) returns (word: Word)
    ensures forall j :: 0 <= j < WORD ==> word[j] == (from + j < n && p(from + j))
  {
    word := ZEROS;
    for j := 0 to WORD
      invariant forall i :: 0 <= i < j ==> word[i] == (from + i < n && p(from + i))
      invariant forall i :: j <= i < WORD ==> !word[i]
    {
      if from + j < n && p(from + j) { word := word[j := true]; }
    }
  }

  method Fill(out: array<Word>, off: nat, n: nat, p: int -> bool)
    requires off + Words(n) <= out.Length
    modifies out
    ensures out[..off] == old(out[..off]) && out[off + Words(n)..] == old(out[off + Words(n)..])
    ensures Filled(Region(out, off, n), n, p)
  {
    for k := 0 to Words(n)
      invariant out[..off] == old(out[..off]) && out[off + Words(n)..] == old(out[off + Words(n)..])
      invariant Filled(out[off..off + k], n, p)
    {
      ghost var done := out[off..off + k];
      var word := WordOf(WORD * k, n, p);
      out[off + k] := word;
      assert out[off..off + k + 1] == done + [word];
    }
  }

  /** Membership, one list value at a time over whole words, or by hash or binary search; the rows
  that do not match are those present that did not hit. */
  method InWord(from: nat, x: seq<Num>, nums: seq<Num>, hash: Option<NumSet>, want: bool) returns (word: Word)
    requires SortedNums(nums) && (hash.Some? ==> HashFits(hash.value, nums))
    ensures forall j :: 0 <= j < WORD ==>
              word[j] == (from + j < |x| && !x[from + j].NaN? && (x[from + j] in nums) == want)
  {
    hide SortedNums;
    var hit := ZEROS;
    if hash.Some? {
      var h := hash.value;
      hit := WordOf(from, |x|, (i: int) => 0 <= i < |x| && h.Has(x[i]));
    } else if |nums| <= LINEAR_SET_MAX {
      for s := 0 to |nums|
        invariant forall j :: 0 <= j < WORD ==>
                  hit[j] == (from + j < |x| && !x[from + j].NaN? && x[from + j] in nums[..s])
      {
        var v := nums[s];
        var same := WordOf(from, |x|, (i: int) => 0 <= i < |x| && Same(x[i], v));
        hit := OrW(hit, same);
        assert nums[..s + 1] == nums[..s] + [v];
      }
      assert nums[..|nums|] == nums;
    } else {
      for j := 0 to WORD
        invariant forall i :: 0 <= i < j ==> hit[i] == (from + i < |x| && !x[from + i].NaN? && x[from + i] in nums)
        invariant forall i :: j <= i < WORD ==> !hit[i]
      {
        if from + j < |x| {
          var found := ContainsNum(nums, x[from + j]);
          if found { hit := hit[j := true]; }
        }
      }
    }
    if want { return hit; }
    var present := WordOf(from, |x|, (i: int) => 0 <= i < |x| && !x[i].NaN?);
    word := AndNotW(present, hit);
  }

  predicate AllZero(ws: seq<Word>) { forall k: nat, j: nat :: k < |ws| && j < WORD ==> !ws[k][j] }

  /** Every row of the chunk is set: full words, and the tail mask in the last. */
  predicate AllSet(ws: seq<Word>, n: nat) {
    forall k: nat, j: nat :: k < |ws| && j < WORD && WORD * k + j < n ==> ws[k][j]
  }

  /** Words outside the region are as they were. */
  ghost predicate Kept(before: seq<Word>, after: seq<Word>, off: nat, n: nat) {
    && |before| == |after| && off + Words(n) <= |after|
    && before[..off] == after[..off] && before[off + Words(n)..] == after[off + Words(n)..]
  }

  /** A comparison, missing or membership test over number vectors that have been evaluated. */
  method EvalNumeric(t: Table, b: BoolNode, lo: nat, n: nat, s: Scratch, out: array<Word>, off: nat, ghost f: nat)
    requires Separate(s) && Laid(b, f, 0) && TopNums(b, f) <= |s.f| && n <= CHUNK && off + Words(n) <= out.Length
    requires b.CmpVC? || b.CmpVV? || b.IsNaNNode?
    modifies FBufs(s, f, TopNums(b, f)), out
    ensures Kept(old(out[..]), out[..], off, n) && Shows(t, b, lo, n, Region(out, off, n))
  {
    hide NumsOf;
    TopFGrows(b.x, f);
    if b.CmpVV? { TopFGrows(b.y, TopF(b.x, f)); }
    var sx := EvalNum(t, b.x, lo, n, s, f);
    if b.CmpVV? {
      var sy := EvalNum(t, b.y, lo, n, s, TopF(b.x, f));
      var x, y, op := Slice(t, s, sx, lo, n), Slice(t, s, sy, lo, n), b.op;
      NumsAre(t, b.x, lo, n);
      NumsAre(t, b.y, lo, n);
      var p := (i: int) => 0 <= i < |x| && i < |y| && GoCompare(op, x[i], y[i]);
      Fill(out, off, n, p);
      FilledShows(t, b, lo, n, Region(out, off, n), p);
      return;
    }
    var x := Slice(t, s, sx, lo, n);
    NumsAre(t, b.x, lo, n);
    if b.CmpVC? {
      var op, c := b.op, b.c;
      var p := (i: int) => 0 <= i < |x| && GoCompare(op, x[i], c);
      Fill(out, off, n, p);
      FilledShows(t, b, lo, n, Region(out, off, n), p);
    } else {
      var want := b.want;
      var p := (i: int) => 0 <= i < |x| && x[i].NaN? == want;
      Fill(out, off, n, p);
      FilledShows(t, b, lo, n, Region(out, off, n), p);
    }
  }

  lemma NumsAre(t: Table, x: NumNode, lo: nat, n: nat)
    ensures |NumsOf(t, x, lo, n)| == n
    ensures forall i: nat :: i < n ==> NumsOf(t, x, lo, n)[i] == NumOf(t, x, lo + i)
  {}

  method FillMember(out: array<Word>, off: nat, x: seq<Num>, nums: seq<Num>, hash: Option<NumSet>, want: bool)
    requires off + Words(|x|) <= out.Length && SortedNums(nums) && (hash.Some? ==> HashFits(hash.value, nums))
    modifies out
    ensures Kept(old(out[..]), out[..], off, |x|) && Filled(Region(out, off, |x|), |x|, MemberBit(x, nums, want))
  {
    hide HashFits, SortedNums;
    for k := 0 to Words(|x|)
      invariant Kept(old(out[..]), out[..], off, |x|)
      invariant Filled(out[off..off + k], |x|, MemberBit(x, nums, want))
    {
      ghost var done := out[off..off + k];
      var word := InWord(WORD * k, x, nums, hash, want);
      out[off + k] := word;
      assert out[off..off + k + 1] == done + [word];
    }
  }

  method EvalMember(t: Table, b: BoolNode, lo: nat, n: nat, s: Scratch, out: array<Word>, off: nat, ghost f: nat)
    requires Separate(s) && Laid(b, f, 0) && TopNums(b, f) <= |s.f| && n <= CHUNK && off + Words(n) <= out.Length
    requires b.InNumNode? && SetsFit(b)
    modifies FBufs(s, f, TopNums(b, f)), out
    ensures Kept(old(out[..]), out[..], off, n) && Shows(t, b, lo, n, Region(out, off, n))
  {
    hide NumsOf, HashFits, SortedNums, Shows, Filled, Kept;
    TopFGrows(b.x, f);
    var sx := EvalNum(t, b.x, lo, n, s, f);
    var x := Slice(t, s, sx, lo, n);
    NumsAre(t, b.x, lo, n);
    FillMember(out, off, x, b.nums, b.hash, b.want);
    MemberShows(t, b, lo, n, Region(out, off, n), x);
  }

  function MemberBit(x: seq<Num>, nums: seq<Num>, want: bool): int -> bool {
    (i: int) => 0 <= i < |x| && !x[i].NaN? && (x[i] in nums) == want
  }

  lemma MemberShows(t: Table, b: BoolNode, lo: nat, n: nat, ws: seq<Word>, x: seq<Num>)
    requires b.InNumNode? && x == NumsOf(t, b.x, lo, n) && |ws| == Words(n)
    requires Filled(ws, n, MemberBit(x, b.nums, b.want))
    ensures Shows(t, b, lo, n, ws)
  {
    NumsAre(t, b.x, lo, n);
    hide NumsOf;
    FilledShows(t, b, lo, n, ws, MemberBit(x, b.nums, b.want));
  }

  /** The bit of a constant or text condition for row i of the chunk. */
  function PlainBit(t: Table, b: BoolNode, lo: nat): nat -> bool
    requires b.ConstBool? || b.LutNode? || b.StrPair? || b.PrefixPair?
  {
    match b
    case ConstBool(v) => i => v
    case LutNode(col, lut) => (i: nat) => Lookup(lut, CodeAt(t, col, lo + i), false)
    case StrPair(ne, a, c, ida, idb) =>
      (i: nat) =>
        var x, y := Lookup(ida, CodeAt(t, a, lo + i), 0), Lookup(idb, CodeAt(t, c, lo + i), 0);
        x != 0 && y != 0 && (x == y) != ne
    case PrefixPair(a, c, va, vb, want) =>
      (i: nat) =>
        var x, y := Lookup(va, CodeAt(t, a, lo + i), ""), Lookup(vb, CodeAt(t, c, lo + i), "");
        x != "" && y != "" && (y <= x) == want
  }

  lemma PlainBitIs(t: Table, b: BoolNode, lo: nat, i: nat)
    requires b.ConstBool? || b.LutNode? || b.StrPair? || b.PrefixPair?
    ensures PlainBit(t, b, lo)(i) == BitOf(t, b, lo + i)
  {}

  /** Conditions that need no number vector: constants and text. */
  method EvalPlain(t: Table, b: BoolNode, lo: nat, n: nat, out: array<Word>, off: nat)
    requires off + Words(n) <= out.Length && (b.ConstBool? || b.LutNode? || b.StrPair? || b.PrefixPair?)
    modifies out
    ensures Kept(old(out[..]), out[..], off, n) && Shows(t, b, lo, n, Region(out, off, n))
  {
    hide BitOf;
    var bit := PlainBit(t, b, lo);
    var p := (i: int) => 0 <= i && bit(i);
    forall i: nat | i < n ensures p(i) == BitOf(t, b, lo + i) { PlainBitIs(t, b, lo, i); }
    hide PlainBit;
    Fill(out, off, n, p);
    FilledShows(t, b, lo, n, Region(out, off, n), p);
  }

  // ---- conditions: sparse chunks -------------------------------------------------------

  /** Rows set in sel are rows of the chunk. */
  ghost predicate Bounded(ws: seq<Word>, n: nat) {
    |ws| == Words(n) && forall k: nat, j: nat :: k < |ws| && j < WORD && ws[k][j] ==> WORD * k + j < n
  }

  /** The rows of before on which p holds. */
  ghost predicate Sifted(before: seq<Word>, after: seq<Word>, p: int -> bool) {
    |before| == |after| && forall k: nat, j: nat :: k < |after| && j < WORD ==>
      after[k][j] == (before[k][j] && p(WORD * k + j))
  }

  ghost predicate Refined(t: Table, b: BoolNode, lo: nat, before: seq<Word>, after: seq<Word>) {
    && |before| == |after|
    && forall k: nat, j: nat :: k < |after| && j < WORD ==>
         after[k][j] == (before[k][j] && BitOf(t, b, lo + WORD * k + j))
  }

  /** Clears the rows set in a word for which keep answers no. */
  method SiftWord(word: Word, from: nat, keep: int -> bool) returns (r: Word)
    ensures forall j :: 0 <= j < WORD ==> r[j] == (word[j] && keep(from + j))
  {
    r := word;
    for j := 0 to WORD
      invariant forall i :: 0 <= i < j ==> r[i] == (word[i] && keep(from + i))
      invariant forall i :: j <= i < WORD ==> r[i] == word[i]
    {
      if word[j] && !keep(from + j) { r := r[j := false]; }
    }
  }

  /** Asks keep about every row set and clears the rows it refuses. */
  method EachSet(sel: array<Word>, off: nat, n: nat, keep: int -> bool)
    requires off + Words(n) <= sel.Length
    modifies sel
    ensures Kept(old(sel[..]), sel[..], off, n) && Sifted(old(Region(sel, off, n)), Region(sel, off, n), keep)
  {
    ghost var before := Region(sel, off, n);
    for k := 0 to Words(n)
      invariant Kept(old(sel[..]), sel[..], off, n)
      invariant Sifted(before[..k], sel[off..off + k], keep)
      invariant sel[off + k..off + Words(n)] == before[k..]
    {
      ghost var done, rest := sel[off..off + k], sel[off + k..off + Words(n)];
      assert sel[off + k] == rest[0] == before[k];
      var word := SiftWord(sel[off + k], WORD * k, keep);
      sel[off + k] := word;
      assert sel[off..off + k + 1] == done + [word];
      assert before[..k + 1] == before[..k] + [before[k]];
      assert sel[off + k + 1..off + Words(n)] == rest[1..];
    }
    assert before[..Words(n)] == before;
  }

  lemma SiftedRefines(t: Table, b: BoolNode, lo: nat, n: nat, before: seq<Word>, after: seq<Word>, p: int -> bool)
    requires Bounded(before, n) && Sifted(before, after, p) && forall i: nat :: i < n ==> p(i) == BitOf(t, b, lo + i)
    ensures Refined(t, b, lo, before, after)
  {
    forall k: nat, j: nat | k < |after| && j < WORD
      ensures after[k][j] == (before[k][j] && BitOf(t, b, lo + WORD * k + j))
    {
      if before[k][j] { assert p(WORD * k + j) == BitOf(t, b, lo + (WORD * k + j)); }
    }
  }

  /** A condition tested row by row: those over bare columns. */
  predicate Testable(b: BoolNode) {
    match b
    case CmpVC(_, x, _) => x.ColNum?
    case CmpVV(_, x, y) => x.ColNum? && y.ColNum?
    case IsNaNNode(x, _) => x.ColNum?
    case InNumNode(x, _, _, _) => x.ColNum?
    case LutNode(_, _) => true
    case StrPair(_, _, _, _, _) => true
    case _ => false
  }

  /** The test of one row, straight from the columns. */
  function Test(t: Table, b: BoolNode, lo: nat): nat -> bool
    requires Testable(b)
  {
    match b
    case CmpVC(op, x, c) => (i: nat) => GoCompare(op, NumberAt(t, x.slot, lo + i), c)
    case CmpVV(op, x, y) => (i: nat) => GoCompare(op, NumberAt(t, x.slot, lo + i), NumberAt(t, y.slot, lo + i))
    case IsNaNNode(x, want) => (i: nat) => NumberAt(t, x.slot, lo + i).NaN? == want
    case InNumNode(x, nums, _, want) =>
      (i: nat) => !NumberAt(t, x.slot, lo + i).NaN? && (NumberAt(t, x.slot, lo + i) in nums) == want
    case LutNode(_, _) => PlainBit(t, b, lo)
    case StrPair(_, _, _, _, _) => PlainBit(t, b, lo)
  }

  lemma TestIs(t: Table, b: BoolNode, lo: nat, i: nat)
    requires Testable(b)
    ensures Test(t, b, lo)(i) == BitOf(t, b, lo + i)
  {
    if b.LutNode? || b.StrPair? { PlainBitIs(t, b, lo, i); }
  }

  method RefineLeaf(t: Table, b: BoolNode, lo: nat, n: nat, sel: array<Word>, off: nat)
    requires Testable(b) && off + Words(n) <= sel.Length && Bounded(Region(sel, off, n), n)
    modifies sel
    ensures Kept(old(sel[..]), sel[..], off, n) && Refined(t, b, lo, old(Region(sel, off, n)), Region(sel, off, n))
  {
    hide BitOf, Bounded;
    ghost var before := Region(sel, off, n);
    var test := Test(t, b, lo);
    var p := (i: int) => 0 <= i && test(i);
    forall i: nat | i < n ensures p(i) == BitOf(t, b, lo + i) { TestIs(t, b, lo, i); }
    hide Test;
    EachSet(sel, off, n, p);
    SiftedRefines(t, b, lo, n, before, Region(sel, off, n), p);
  }

  // ---- and, or ---------------------------------------------------------------------------

  ghost predicate Combined(or: bool, a: seq<Word>, b: seq<Word>, r: seq<Word>) {
    && |a| == |b| == |r|
    && forall k: nat, j: nat :: k < |r| && j < WORD ==>
         r[k][j] == (if or then a[k][j] || b[k][j] else a[k][j] && b[k][j])
  }

  /** Word by word, out = out op tmp. */
  method Combine(or: bool, out: array<Word>, off: nat, n: nat, tmp: array<Word>)
    requires off + Words(n) <= out.Length && Words(n) <= tmp.Length && out != tmp
    modifies out
    ensures Kept(old(out[..]), out[..], off, n)
    ensures Combined(or, old(Region(out, off, n)), tmp[..Words(n)], Region(out, off, n))
  {
    ghost var before, other := Region(out, off, n), tmp[..Words(n)];
    for k := 0 to Words(n)
      invariant Kept(old(out[..]), out[..], off, n) && tmp[..Words(n)] == other
      invariant Combined(or, before[..k], other[..k], out[off..off + k])
      invariant out[off + k..off + Words(n)] == before[k..]
    {
      ghost var done, rest := out[off..off + k], out[off + k..off + Words(n)];
      assert out[off + k] == rest[0] == before[k] && tmp[k] == other[k];
      var word := if or then OrW(out[off + k], tmp[k]) else AndW(out[off + k], tmp[k]);
      out[off + k] := word;
      assert out[off..off + k + 1] == done + [word];
      assert before[..k + 1] == before[..k] + [before[k]] && other[..k + 1] == other[..k] + [other[k]];
      assert out[off + k + 1..off + Words(n)] == rest[1..];
    }
    assert before[..Words(n)] == before && other[..Words(n)] == other;
  }

  /** Few enough rows that testing them beats evaluating the chunk in full. */
  const SPARSE_DENSITY := 16

  method Sparse(ws: seq<Word>, n: nat) returns (yes: bool) {
    var count := 0;
    for k := 0 to |ws| {
      for j := 0 to WORD {
        if ws[k][j] { count := count + 1; }
      }
    }
    yes := count * SPARSE_DENSITY <= n;
  }

  lemma ShownIsBounded(t: Table, b: BoolNode, lo: nat, n: nat, ws: seq<Word>)
    requires Shows(t, b, lo, n, ws)
    ensures Bounded(ws, n)
  {}

  /** When the left side decides every row, the right side need not be evaluated. */
  lemma Decided(t: Table, b: BoolNode, lo: nat, n: nat, ws: seq<Word>)
    requires b.LogicNode? && Shows(t, b.l, lo, n, ws) && if b.or then AllSet(ws, n) else AllZero(ws)
    ensures Shows(t, b, lo, n, ws)
  {
    forall k: nat, j: nat | k < |ws| && j < WORD
      ensures ws[k][j] == (WORD * k + j < n && BitOf(t, b, lo + WORD * k + j))
    {
      assert ws[k][j] == (WORD * k + j < n && BitOf(t, b.l, lo + WORD * k + j));
    }
  }

  lemma CombinedShows(t: Table, b: BoolNode, lo: nat, n: nat, x: seq<Word>, y: seq<Word>, ws: seq<Word>)
    requires b.LogicNode? && Shows(t, b.l, lo, n, x) && Shows(t, b.r, lo, n, y) && Combined(b.or, x, y, ws)
    ensures Shows(t, b, lo, n, ws)
  {
    forall k: nat, j: nat | k < |ws| && j < WORD
      ensures ws[k][j] == (WORD * k + j < n && BitOf(t, b, lo + WORD * k + j))
    {
      assert x[k][j] == (WORD * k + j < n && BitOf(t, b.l, lo + WORD * k + j));
      assert y[k][j] == (WORD * k + j < n && BitOf(t, b.r, lo + WORD * k + j));
    }
  }

  lemma RefinedShows(t: Table, b: BoolNode, lo: nat, n: nat, x: seq<Word>, ws: seq<Word>)
    requires b.LogicNode? && !b.or && Shows(t, b.l, lo, n, x) && Refined(t, b.r, lo, x, ws)
    ensures Shows(t, b, lo, n, ws)
  {
    forall k: nat, j: nat | k < |ws| && j < WORD
      ensures ws[k][j] == (WORD * k + j < n && BitOf(t, b, lo + WORD * k + j))
    {
      assert x[k][j] == (WORD * k + j < n && BitOf(t, b.l, lo + WORD * k + j));
    }
  }

  /** Evaluating in full and taking the common rows refines too. */
  lemma CombinedRefines(t: Table, b: BoolNode, lo: nat, n: nat, before: seq<Word>, y: seq<Word>, after: seq<Word>)
    requires Bounded(before, n) && Shows(t, b, lo, n, y) && Combined(false, before, y, after)
    ensures Refined(t, b, lo, before, after)
  {
    forall k: nat, j: nat | k < |after| && j < WORD
      ensures after[k][j] == (before[k][j] && BitOf(t, b, lo + WORD * k + j))
    {
      assert y[k][j] == (WORD * k + j < n && BitOf(t, b, lo + WORD * k + j));
    }
  }

  lemma RefinedTwice(t: Table, b: BoolNode, lo: nat, before: seq<Word>, mid: seq<Word>, after: seq<Word>)
    requires b.LogicNode? && !b.or && Refined(t, b.l, lo, before, mid) && Refined(t, b.r, lo, mid, after)
    ensures Refined(t, b, lo, before, after)
  {
    forall k: nat, j: nat | k < |after| && j < WORD
      ensures after[k][j] == (before[k][j] && BitOf(t, b, lo + WORD * k + j))
    {
      assert mid[k][j] == (before[k][j] && BitOf(t, b.l, lo + WORD * k + j));
    }
  }

  lemma RefinedToNothing(t: Table, b: BoolNode, lo: nat, before: seq<Word>, mid: seq<Word>)
    requires b.LogicNode? && !b.or && Refined(t, b.l, lo, before, mid) && AllZero(mid)
    ensures Refined(t, b, lo, before, mid)
  {
    forall k: nat, j: nat | k < |mid| && j < WORD
      ensures mid[k][j] == (before[k][j] && BitOf(t, b, lo + WORD * k + j))
    {
      assert mid[k][j] == (before[k][j] && BitOf(t, b.l, lo + WORD * k + j));
    }
  }

  lemma RefinedIsBounded(t: Table, b: BoolNode, lo: nat, n: nat, before: seq<Word>, after: seq<Word>)
    requires Bounded(before, n) && Refined(t, b, lo, before, after)
    ensures Bounded(after, n)
  {}

  lemma KeptTwice(a: seq<Word>, b: seq<Word>, c: seq<Word>, off: nat, n: nat)
    requires Kept(a, b, off, n) && Kept(b, c, off, n)
    ensures Kept(a, c, off, n)
  {}

  /** Evaluates a condition over the chunk of n rows from lo into words of out: bit i is set exactly
  when the condition's bit is, and the bits past the chunk are zero. */
  method Eval(t: Table, b: BoolNode, lo: nat, n: nat, s: Scratch, out: array<Word>, off: nat, ghost f: nat,
      ghost w: nat)
    requires Separate(s) && Laid(b, f, w) && TopNums(b, f) <= |s.f| && TopWords(b, w) <= |s.w| && SetsFit(b)
    requires n <= CHUNK
    requires off + Words(n) <= out.Length && out !in WBufs(s, w, TopWords(b, w))
    modifies FBufs(s, f, TopNums(b, f)), WBufs(s, w, TopWords(b, w)), out
    ensures Kept(old(out[..]), out[..], off, n) && Shows(t, b, lo, n, Region(out, off, n))
    decreases b, 1
  {
    hide Shows, BitOf, Kept;
    match b
    case LogicNode(_, _, _, _) => EvalLogic(t, b, lo, n, s, out, off, f, w);
    case InNumNode(_, _, _, _) => EvalMember(t, b, lo, n, s, out, off, f);
    case CmpVC(_, _, _) => EvalNumeric(t, b, lo, n, s, out, off, f);
    case CmpVV(_, _, _) => EvalNumeric(t, b, lo, n, s, out, off, f);
    case IsNaNNode(_, _) => EvalNumeric(t, b, lo, n, s, out, off, f);
    case _ => EvalPlain(t, b, lo, n, out, off);
  }

  /** And, or: the right side is skipped when the left decides the chunk, and tested row by row when
  the left leaves few. */
  method EvalLogic(t: Table, b: BoolNode, lo: nat, n: nat, s: Scratch, out: array<Word>, off: nat, ghost f: nat,
      ghost w: nat)
    requires Separate(s) && Laid(b, f, w) && TopNums(b, f) <= |s.f| && TopWords(b, w) <= |s.w| && SetsFit(b)
    requires n <= CHUNK
    requires off + Words(n) <= out.Length && out !in WBufs(s, w, TopWords(b, w)) && b.LogicNode?
    modifies FBufs(s, f, TopNums(b, f)), WBufs(s, w, TopWords(b, w)), out
    ensures Kept(old(out[..]), out[..], off, n) && Shows(t, b, lo, n, Region(out, off, n))
    decreases b, 0
  {
    hide Shows, BitOf, Kept, AllSet, AllZero, Bounded, Refined, Combined;
    TopsGrow(b.l, f, w);
    TopsGrow(b.r, TopNums(b.l, f), TopWords(b.l, w));
    ghost var f1, w1, start := TopNums(b.l, f), TopWords(b.l, w), out[..];
    Eval(t, b.l, lo, n, s, out, off, f, w);
    ghost var left, after := Region(out, off, n), out[..];
    var ws := Region(out, off, n);
    if if b.or then AllSet(ws, n) else AllZero(ws) {
      Decided(t, b, lo, n, ws);
      return;
    }
    ShownIsBounded(t, b.l, lo, n, ws);
    if !b.or {
      var few := Sparse(ws, n);
      if few {
        var done := Refine(t, b.r, lo, n, s, out, off, f1, w1);
        KeptTwice(start, after, out[..], off, n);
        if done {
          RefinedShows(t, b, lo, n, left, Region(out, off, n));
          return;
        }
      }
    }
    ghost var mid := out[..];
    var tmp := s.w[b.wbuf];
    Eval(t, b.r, lo, n, s, tmp, 0, f1, w1);
    ghost var right := Region(tmp, 0, n);
    assert tmp[..Words(n)] == right && Region(out, off, n) == left;
    Combine(b.or, out, off, n, tmp);
    KeptTwice(start, mid, out[..], off, n);
    CombinedShows(t, b, lo, n, left, right, Region(out, off, n));
  }

  /** Clears, in sel, the rows where the condition does not hold, looking only at rows set; false,
  and sel untouched, when the condition cannot be tested row by row. */
  method Refine(t: Table, b: BoolNode, lo: nat, n: nat, s: Scratch, sel: array<Word>, off: nat, ghost f: nat,
      ghost w: nat)
      returns (done: bool)
    requires Separate(s) && Laid(b, f, w) && TopNums(b, f) <= |s.f| && TopWords(b, w) <= |s.w| && SetsFit(b)
    requires n <= CHUNK
    requires off + Words(n) <= sel.Length && sel !in WBufs(s, w, TopWords(b, w)) && Bounded(Region(sel, off, n), n)
    modifies FBufs(s, f, TopNums(b, f)), WBufs(s, w, TopWords(b, w)), sel
    ensures Kept(old(sel[..]), sel[..], off, n)
    ensures if done then Refined(t, b, lo, old(Region(sel, off, n)), Region(sel, off, n))
            else Region(sel, off, n) == old(Region(sel, off, n))
    decreases b, 2
  {
    hide Shows, BitOf, AllZero, Bounded, Refined, Combined;
    if b.LogicNode? && !b.or {
      TopsGrow(b.l, f, w);
      TopsGrow(b.r, TopNums(b.l, f), TopWords(b.l, w));
      ghost var before, start := Region(sel, off, n), sel[..];
      Narrow(t, b.l, lo, n, s, sel, off, s.w[b.wbuf], f, w);
      ghost var mid, after := Region(sel, off, n), sel[..];
      if AllZero(Region(sel, off, n)) {
        RefinedToNothing(t, b, lo, before, mid);
        return true;
      }
      RefinedIsBounded(t, b.l, lo, n, before, mid);
      Narrow(t, b.r, lo, n, s, sel, off, s.w[b.wbuf], TopNums(b.l, f), TopWords(b.l, w));
      KeptTwice(start, after, sel[..], off, n);
      RefinedTwice(t, b, lo, before, mid, Region(sel, off, n));
      return true;
    }
    if Testable(b) {
      RefineLeaf(t, b, lo, n, sel, off);
      return true;
    }
    return false;
  }

  /** One side of an and: refined, or evaluated in full into tmp. */
  method Narrow(t: Table, b: BoolNode, lo: nat, n: nat, s: Scratch, sel: array<Word>, off: nat, tmp: array<Word>,
      ghost f: nat, ghost w: nat)
    requires Separate(s) && Laid(b, f, w) && TopNums(b, f) <= |s.f| && TopWords(b, w) <= |s.w| && SetsFit(b)
    requires n <= CHUNK
    requires off + Words(n) <= sel.Length && sel !in WBufs(s, w, TopWords(b, w)) && Bounded(Region(sel, off, n), n)
    requires tmp != sel && tmp.Length == CHUNK / WORD && tmp !in WBufs(s, w, TopWords(b, w))
    modifies FBufs(s, f, TopNums(b, f)), WBufs(s, w, TopWords(b, w)), sel, tmp
    ensures Kept(old(sel[..]), sel[..], off, n)
    ensures Refined(t, b, lo, old(Region(sel, off, n)), Region(sel, off, n))
    decreases b, 3
  {
    hide Shows, BitOf, Bounded, Refined, Combined, Kept;
    ghost var before, start := Region(sel, off, n), sel[..];
    var done := Refine(t, b, lo, n, s, sel, off, f, w);
    if done { return; }
    ghost var mid := sel[..];
    Eval(t, b, lo, n, s, tmp, 0, f, w);
    ghost var right := Region(tmp, 0, n);
    assert tmp[..Words(n)] == right && Region(sel, off, n) == before;
    Combine(false, sel, off, n, tmp);
    KeptTwice(start, mid, sel[..], off, n);
    CombinedRefines(t, b, lo, n, before, right, Region(sel, off, n));
  }
}
