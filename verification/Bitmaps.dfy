/** Sets of row numbers packed into 64-row words (internal/backtest/bitmap.go). */
module Bitmaps {
  import opened VectorEval

  predicate BitAt(ws: seq<Word>, i: nat) { i / WORD < |ws| && ws[i / WORD][i % WORD] }

  /** The first m rows that are set. */
  ghost function RowsTo(ws: seq<Word>, m: nat): set<nat> { set i: nat | i < m && BitAt(ws, i) }

  /** No bit at or past row n is set. */
  ghost predicate TailZero(ws: seq<Word>, n: nat) {
    |ws| == Words(n) && forall k: nat, j: nat :: k < |ws| && j < WORD && ws[k][j] ==> WORD * k + j < n
  }

  /** The valid bits of the last of the words over n rows. */
  function TailMask(n: nat): Word { seq(WORD, j => n % WORD == 0 || j < n % WORD) }

  function NotW(a: Word): Word { seq(WORD, j requires 0 <= j < WORD => !a[j]) }

  lemma Place(i: nat, k: nat, j: nat)
    requires j < WORD
    ensures (i / WORD == k && i % WORD == j) <==> i == WORD * k + j
  {}

  /** The set bits among the first m of a word. */
  function Ones(a: Word, m: nat): nat
    requires m <= WORD
  {
    if m == 0 then 0 else Ones(a, m - 1) + if a[m - 1] then 1 else 0
  }

  lemma {:induction false} OnesCount(ws: seq<Word>, k: nat, m: nat)
    requires k < |ws| && m <= WORD
    ensures |RowsTo(ws, WORD * k + m)| == |RowsTo(ws, WORD * k)| + Ones(ws[k], m)
    decreases m
  {
    if m > 0 {
      OnesCount(ws, k, m - 1);
      var i := WORD * k + (m - 1);
      Place(i, k, m - 1);
      if BitAt(ws, i) {
        assert RowsTo(ws, i + 1) == RowsTo(ws, i) + {i};
      } else {
        assert RowsTo(ws, i + 1) == RowsTo(ws, i);
      }
    }
  }

  /** The number of trailing zeros: the lowest set bit at or after from. */
  function Lowest(a: Word, from: nat): nat
    requires from <= WORD
    decreases WORD - from
  {
    if from == WORD || a[from] then from else Lowest(a, from + 1)
  }

  lemma {:induction false} LowestIs(a: Word, from: nat)
    requires from <= WORD
    ensures from <= Lowest(a, from) <= WORD && (Lowest(a, from) < WORD ==> a[Lowest(a, from)])
    ensures forall j :: from <= j < Lowest(a, from) ==> !a[j]
    decreases WORD - from
  {
    if from < WORD && !a[from] { LowestIs(a, from + 1); }
  }

  /** Rows [from, to) hold no set bit. */
  ghost predicate Gap(ws: seq<Word>, from: nat, to: nat) { forall i: nat :: from <= i < to ==> !BitAt(ws, i) }

  lemma NoGap(ws: seq<Word>, from: nat)
    ensures Gap(ws, from, WORD * (from / WORD) + from % WORD)
  {}

  lemma GapGrows(ws: seq<Word>, from: nat, k: nat, j: nat)
    requires k < |ws| && j < WORD && Gap(ws, from, WORD * k + j) && from <= WORD * k + j
    ensures j <= Lowest(ws[k], j) <= WORD && Gap(ws, from, WORD * k + Lowest(ws[k], j))
    ensures Lowest(ws[k], j) < WORD ==> BitAt(ws, WORD * k + Lowest(ws[k], j))
  {
    LowestIs(ws[k], j);
    var low := Lowest(ws[k], j);
    forall i: nat | WORD * k + j <= i < WORD * k + low ensures !BitAt(ws, i) { Place(i, k, i - WORD * k); }
    if low < WORD { Place(WORD * k + low, k, low); }
  }

  lemma FirstOf(ws: seq<Word>, from: nat, r: nat, n: nat)
    requires Gap(ws, from, r) && BitAt(ws, r) && TailZero(ws, n)
    ensures r in RowsTo(ws, n) && forall x :: x in RowsTo(ws, n) && from <= x ==> r <= x
  {
    assert ws[r / WORD][r % WORD] && WORD * (r / WORD) + r % WORD == r;
  }

  lemma GapToEnd(ws: seq<Word>, from: nat, n: nat)
    requires Gap(ws, from, WORD * |ws|) && |ws| == Words(n)
    ensures forall x :: x in RowsTo(ws, n) ==> x < from
  {}

  class Bitmap {
    const n: nat
    const w: array<Word>

    ghost predicate Valid()
      reads w
    {
      TailZero(w[..], n)
    }

    /** The rows set. */
    ghost function Rows(): set<nat>
      reads w
    {
      RowsTo(w[..], n)
    }

    /** The empty set of rows below n. */
    constructor (n: nat)
      ensures Valid() && this.n == n && fresh(w) && Rows() == {}
    {
      this.n := n;
      this.w := new Word[Words(n)](_ => ZEROS);
    }

    /** Over words already filled. */
    constructor Over(n: nat, w: array<Word>)
      requires TailZero(w[..], n)
      ensures Valid() && this.n == n && this.w == w
    {
      this.n, this.w := n, w;
    }

    method Get(i: nat) returns (b: bool)
      requires Valid() && i < n
      ensures b == (i in Rows())
    {
      Place(i, i / WORD, i % WORD);
      b := w[i / WORD][i % WORD];
    }

    method Set(i: nat)
      requires Valid() && i < n
      modifies w
      ensures Valid() && Rows() == old(Rows()) + {i}
    {
      w[i / WORD] := w[i / WORD][i % WORD := true];
      forall x: nat | x < n ensures x in Rows() <==> x in old(Rows()) || x == i { Place(x, i / WORD, i % WORD); }
    }

    method Clear(i: nat)
      requires Valid() && i < n
      modifies w
      ensures Valid() && Rows() == old(Rows()) - {i}
    {
      w[i / WORD] := w[i / WORD][i % WORD := false];
      forall x: nat | x < n ensures x in Rows() <==> x in old(Rows()) && x != i { Place(x, i / WORD, i % WORD); }
    }

    method Clone() returns (c: Bitmap)
      requires Valid()
      ensures fresh(c) && fresh(c.w) && c.Valid() && c.n == n && c.Rows() == Rows()
    {
      c := new Bitmap(n);
      for k := 0 to w.Length
        invariant c.w[..k] == w[..k]
      {
        c.w[k] := w[k];
      }
      assert c.w[..] == w[..];
    }

    /** Intersects with o in place. */
    method And(o: Bitmap)
      requires Valid() && o.Valid() && o.n == n
      modifies w
      ensures Valid() && Rows() == old(Rows()) * old(o.Rows())
    {
      for k := 0 to w.Length
        invariant forall l :: 0 <= l < k ==> w[l] == AndW(old(w[l]), old(o.w[l]))
        invariant forall l :: k <= l < w.Length ==> w[l] == old(w[l]) && o.w[l] == old(o.w[l])
      {
        w[k] := AndW(w[k], o.w[k]);
      }
    }

    /** Adds the rows in o. */
    method Or(o: Bitmap)
      requires Valid() && o.Valid() && o.n == n
      modifies w
      ensures Valid() && Rows() == old(Rows()) + old(o.Rows())
    {
      for k := 0 to w.Length
        invariant forall l :: 0 <= l < k ==> w[l] == OrW(old(w[l]), old(o.w[l]))
        invariant forall l :: k <= l < w.Length ==> w[l] == old(w[l]) && o.w[l] == old(o.w[l])
      {
        w[k] := OrW(w[k], o.w[k]);
      }
    }

    /** Removes the rows in o. */
    method AndNot(o: Bitmap)
      requires Valid() && o.Valid() && o.n == n
      modifies w
      ensures Valid() && Rows() == old(Rows()) - old(o.Rows())
    {
      for k := 0 to w.Length
        invariant forall l :: 0 <= l < k ==> w[l] == AndNotW(old(w[l]), old(o.w[l]))
        invariant forall l :: k <= l < w.Length ==> w[l] == old(w[l]) && o.w[l] == old(o.w[l])
      {
        w[k] := AndNotW(w[k], o.w[k]);
      }
    }

    /** Clears the bits past the rows. */
    method Trim()
      requires w.Length == Words(n)
      modifies w
      ensures Valid() && Rows() == old(Rows())
    {
      if w.Length > 0 { w[w.Length - 1] := AndW(w[w.Length - 1], TailMask(n)); }
    }

    /** The rows not set. */
    method Not()
      requires Valid()
      modifies w
      ensures Valid() && Rows() == set i: nat | i < n && i !in old(Rows())
    {
      for k := 0 to w.Length
        invariant forall l :: 0 <= l < k ==> w[l] == NotW(old(w[l]))
        invariant forall l :: k <= l < w.Length ==> w[l] == old(w[l])
      {
        w[k] := NotW(w[k]);
      }
      Trim();
    }

    /** How many rows are set. */
    method Count() returns (c: nat)
      requires Valid()
      ensures c == |Rows()|
    {
      c := 0;
      for k := 0 to w.Length
        invariant c == |RowsTo(w[..], WORD * k)|
      {
        OnesCount(w[..], k, WORD);
        c := c + Ones(w[k], WORD);
      }
      assert RowsTo(w[..], WORD * w.Length) == Rows();
    }

    /** How many rows are in both. */
    method AndCount(o: Bitmap) returns (c: nat)
      requires Valid() && o.Valid() && o.n == n
      ensures c == |Rows() * o.Rows()|
    {
      ghost var both := seq(w.Length, k requires 0 <= k < w.Length reads w, o.w => AndW(w[k], o.w[k]));
      c := 0;
      for k := 0 to w.Length
        invariant c == |RowsTo(both, WORD * k)|
      {
        OnesCount(both, k, WORD);
        c := c + Ones(AndW(w[k], o.w[k]), WORD);
      }
      assert RowsTo(both, WORD * w.Length) == Rows() * o.Rows();
    }

    method Any() returns (b: bool)
      requires Valid()
      ensures b == (Rows() != {})
    {
      for k := 0 to w.Length
        invariant forall l: nat :: l < k ==> w[l] == ZEROS
      {
        if w[k] != ZEROS {
          LowestIs(w[k], 0);
          assert WORD * k + Lowest(w[k], 0) in Rows();
          return true;
        }
      }
      return false;
    }

    /** The least member from i on; -1 says that there is none. */
    method Next(i: int) returns (r: int)
      requires Valid()
      ensures r == -1 ==> forall x :: x in Rows() ==> x < i
      ensures r != -1 ==> r >= 0 && r >= i && r in Rows() && forall x :: x in Rows() && i <= x ==> r <= x
    {
      hide Gap, Lowest;
      var from := if i < 0 then 0 else i;
      if from >= n { return -1; }
      NoGap(w[..], from);
      var k: nat, j: nat := from / WORD, from % WORD;
      while k < w.Length
        invariant k <= w.Length && j < WORD && Gap(w[..], from, WORD * k + j) && from <= WORD * k + j
        invariant (k == w.Length ==> j == 0)
        decreases w.Length - k
      {
        var low := Lowest(w[k], j);
        GapGrows(w[..], from, k, j);
        if low < WORD {
          FirstOf(w[..], from, WORD * k + low, n);
          return WORD * k + low;
        }
        k, j := k + 1, 0;
      }
      GapToEnd(w[..], from, n);
      return -1;
    }

    /** The rows set, in order. */
    method List() returns (out: seq<nat>)
      requires Valid()
      ensures (forall x :: x in out <==> x in Rows()) && forall a, b :: 0 <= a < b < |out| ==> out[a] < out[b]
    {
      out := [];
      for k := 0 to w.Length
        invariant forall x :: x in out <==> x in RowsTo(w[..], WORD * k)
        invariant forall a, b :: 0 <= a < b < |out| ==> out[a] < out[b]
      {
        out := AppendBits(w[..], k, out);
      }
    }
  }

  /** Appends the rows of word k, each step stripping the lowest bit. */
  method AppendBits(ws: seq<Word>, k: nat, before: seq<nat>) returns (out: seq<nat>)
    requires k < |ws| && forall a, b :: 0 <= a < b < |before| ==> before[a] < before[b]
    requires forall x :: x in before <==> x in RowsTo(ws, WORD * k)
    ensures forall x :: x in out <==> x in RowsTo(ws, WORD * (k + 1))
    ensures forall a, b :: 0 <= a < b < |out| ==> out[a] < out[b]
  {
    out := before;
    var left := ws[k];
    ghost var j: nat := 0;
    while left != ZEROS
      invariant j <= WORD && forall i :: 0 <= i < WORD ==> left[i] == (i >= j && ws[k][i])
      invariant forall x :: x in out <==> x in RowsTo(ws, WORD * k + j)
      invariant forall a, b :: 0 <= a < b < |out| ==> out[a] < out[b]
      decreases WORD - j
    {
      LowestIs(left, 0);
      var low := Lowest(left, 0);
      NextRow(ws, k, j, low);
      assert forall a :: 0 <= a < |out| ==> out[a] in out && out[a] < WORD * k + j;
      out := out + [WORD * k + low];
      left := left[low := false];
      j := low + 1;
    }
    NoMoreRows(ws, k, j, left);
  }

  lemma NextRow(ws: seq<Word>, k: nat, j: nat, low: nat)
    requires k < |ws| && j <= low < WORD && ws[k][low] && forall i :: j <= i < low ==> !ws[k][i]
    ensures RowsTo(ws, WORD * k + low + 1) == RowsTo(ws, WORD * k + j) + {WORD * k + low}
  {
    Place(WORD * k + low, k, low);
    forall x: nat | WORD * k + j <= x < WORD * k + low ensures !BitAt(ws, x) { Place(x, k, x - WORD * k); }
  }

  lemma NoMoreRows(ws: seq<Word>, k: nat, j: nat, left: Word)
    requires k < |ws| && j <= WORD && left == ZEROS && forall i :: 0 <= i < WORD ==> left[i] == (i >= j && ws[k][i])
    ensures RowsTo(ws, WORD * (k + 1)) == RowsTo(ws, WORD * k + j)
  {
    forall x: nat | WORD * k + j <= x < WORD * (k + 1) ensures !BitAt(ws, x) {
      Place(x, k, x - WORD * k);
      assert !left[x - WORD * k];
    }
  }
}
