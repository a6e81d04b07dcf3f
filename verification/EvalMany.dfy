/** Evaluating several programs over a range of rows, a chunk at a time in any order
(internal/backtest/vector.go, internal/backtest/bitmap.go). */
module EvalMany {
  import opened Numbers
  import opened Domain
  import opened Text
  import opened Language
  import opened Meaning
  import opened Columns
  import opened VectorCompiler
  import opened VectorEval

  /** Bit j of word k is row 64 * k + j: set exactly on the rows of [lo, hi) the program's condition holds
  on, and never past the table. */
  ghost predicate Answered(t: Table, root: BoolNode, lo: int, hi: int, ws: seq<Word>) {
    forall k: nat, j: nat :: k < |ws| && j < WORD ==>
      ws[k][j] == (lo <= WORD * k + j < hi && BitOf(t, root, WORD * k + j))
  }

  /** Word k belongs to a chunk that has been evaluated. */
  predicate ChunkIn(k: nat, start: nat, done: set<nat>) { start <= WORD * k && (WORD * k - start) / CHUNK in done }

  /** The words of the chunks done are answered up to hi; the others are still zero. */
  ghost predicate Partial(t: Table, root: BoolNode, start: nat, hi: nat, done: set<nat>, ws: seq<Word>) {
    forall k: nat, j: nat :: k < |ws| && j < WORD ==>
      ws[k][j] == (ChunkIn(k, start, done) && WORD * k + j < hi && BitOf(t, root, WORD * k + j))
  }

  lemma ChunkDone(t: Table, root: BoolNode, start: nat, hi: nat, done: set<nat>, c: nat, n: nat, before: seq<Word>,
      after: seq<Word>)
    requires start % WORD == 0 && start + CHUNK * c < hi
    requires n == (if hi - (start + CHUNK * c) < CHUNK then hi - (start + CHUNK * c) else CHUNK)
    requires Partial(t, root, start, hi, done, before)
    requires Kept(before, after, (start + CHUNK * c) / WORD, n)
    requires Shows(t, root, start + CHUNK * c, n,
              after[(start + CHUNK * c) / WORD..(start + CHUNK * c) / WORD + Words(n)])
    ensures Partial(t, root, start, hi, done + {c}, after)
  {
    hide BitOf;
    var clo := start + CHUNK * c;
    var off := clo / WORD;
    assert clo == WORD * off;
    forall k: nat, j: nat | k < |after| && j < WORD
      ensures after[k][j] == (ChunkIn(k, start, done + {c}) && WORD * k + j < hi && BitOf(t, root, WORD * k + j))
    {
      if off <= k < off + Words(n) {
        InsideChunk(t, root, start, hi, c, n, off, after, k, j);
      } else {
        OutsideChunk(before, after, off, n, k);
        assert before[k][j] == (ChunkIn(k, start, done) && WORD * k + j < hi && BitOf(t, root, WORD * k + j));
      }
    }
  }

  lemma InsideChunk(t: Table, root: BoolNode, start: nat, hi: nat, c: nat, n: nat, off: nat, after: seq<Word>, k: nat,
      j: nat)
    requires start + CHUNK * c == WORD * off && n == (if hi - WORD * off < CHUNK then hi - WORD * off else CHUNK)
    requires off + Words(n) <= |after| && off <= k < off + Words(n) && j < WORD && n <= CHUNK
    requires Shows(t, root, WORD * off, n, after[off..off + Words(n)])
    ensures after[k][j] == (WORD * k + j < hi && BitOf(t, root, WORD * k + j)) && (WORD * k - start) / CHUNK == c
    ensures start <= WORD * k
  {
    hide BitOf;
    var m := k - off;
    var region := after[off..off + Words(n)];
    assert region[m] == after[k];
    assert region[m][j] == (WORD * m + j < n && BitOf(t, root, WORD * off + WORD * m + j));
    assert WORD * off + WORD * m + j == WORD * k + j;
    hide Shows;
  }

  lemma OutsideChunk(before: seq<Word>, after: seq<Word>, off: nat, n: nat, k: nat)
    requires Kept(before, after, off, n) && k < |after| && !(off <= k < off + Words(n))
    ensures after[k] == before[k]
  {
    if k < off {
      assert before[..off][k] == after[..off][k];
    } else {
      assert before[off + Words(n)..][k - off - Words(n)] == after[off + Words(n)..][k - off - Words(n)];
    }
  }

  ghost predicate Apart(out: seq<array<Word>>, s: Scratch, nwords: nat) {
    && (forall i :: 0 <= i < |out| ==> out[i].Length == nwords && out[i] !in WBufs(s, 0, |s.w|))
    && (forall i, j :: 0 <= i < |out| && 0 <= j < |out| && out[i] == out[j] ==> i == j)
  }

  ghost function FreshOf(s: Scratch, out: seq<array<Word>>): set<object> {
    FBufs(s, 0, |s.f|) + WBufs(s, 0, |s.w|) + set i | 0 <= i < |out| :: out[i]
  }

  /** One chunk: every program is run over it before moving on. */
  method RunChunk(t: Table, progs: seq<Program>, out: seq<array<Word>>, s: Scratch, start: nat, hi: nat, c: nat,
      ghost done: set<nat>)
    requires Separate(s) && |out| == |progs| && Apart(out, s, Words(t.n)) && hi <= t.n && start % WORD == 0
    requires start + CHUNK * c < hi
    requires forall i :: 0 <= i < |progs| ==> ProgramFits(progs[i]) && progs[i].nf <= |s.f| && progs[i].nw <= |s.w|
    requires forall i :: 0 <= i < |out| ==> Partial(t, progs[i].root, start, hi, done, out[i][..])
    modifies FreshOf(s, out)
    ensures forall i :: 0 <= i < |out| ==> Partial(t, progs[i].root, start, hi, done + {c}, out[i][..])
  {
    hide Partial, Shows, Kept, BitOf;
    var clo := start + CHUNK * c;
    var n := if hi - clo < CHUNK then hi - clo else CHUNK;
    var w0 := clo / WORD;
    for i := 0 to |progs|
      invariant forall j :: 0 <= j < i ==> Partial(t, progs[j].root, start, hi, done + {c}, out[j][..])
      invariant forall j :: i <= j < |out| ==> Partial(t, progs[j].root, start, hi, done, out[j][..])
    {
      ghost var before := out[i][..];
      Eval(t, progs[i].root, clo, n, s, out[i], w0, 0, 0);
      ChunkDone(t, progs[i].root, start, hi, done, c, n, before, out[i][..]);
    }
  }

  ghost function ChunksOf(order: seq<nat>): set<nat> { set c | c in order }

  method NewBuffers<T(0)>(count: nat, length: nat) returns (bufs: seq<array<T>>)
    ensures |bufs| == count && forall i :: 0 <= i < count ==> fresh(bufs[i]) && bufs[i].Length == length
    ensures forall i, j :: 0 <= i < count && 0 <= j < count && bufs[i] == bufs[j] ==> i == j
  {
    bufs := [];
    for k := 0 to count
      invariant |bufs| == k && forall i :: 0 <= i < k ==> fresh(bufs[i]) && bufs[i].Length == length
      invariant forall i, j :: 0 <= i < k && 0 <= j < k && bufs[i] == bufs[j] ==> i == j
    {
      var b := new T[length];
      bufs := bufs + [b];
    }
  }

  method NewScratch(nf: nat, nw: nat) returns (s: Scratch)
    ensures Separate(s) && |s.f| == nf && |s.w| == nw
    ensures (forall i :: 0 <= i < nf ==> fresh(s.f[i])) && (forall i :: 0 <= i < nw ==> fresh(s.w[i]))
  {
    var f := NewBuffers<Num>(nf, CHUNK);
    var w := NewBuffers<Word>(nw, CHUNK / WORD);
    s := Scratch(f, w);
  }

  /** The scratch any of the programs takes. */
  method MostScratch(progs: seq<Program>) returns (nf: nat, nw: nat)
    ensures forall r :: 0 <= r < |progs| ==> progs[r].nf <= nf && progs[r].nw <= nw
  {
    nf, nw := 0, 0;
    for r := 0 to |progs|
      invariant forall l :: 0 <= l < r ==> progs[l].nf <= nf && progs[l].nw <= nw
    {
      nf, nw := if progs[r].nf > nf then progs[r].nf else nf, if progs[r].nw > nw then progs[r].nw else nw;
    }
  }

  /** Empty bitmaps over n rows. */
  method NewBitmaps(count: nat, n: nat) returns (out: seq<array<Word>>)
    ensures |out| == count
    ensures forall i :: 0 <= i < count ==> fresh(out[i]) && out[i].Length == Words(n) && AllZero(out[i][..])
    ensures forall i, j :: 0 <= i < count && 0 <= j < count && out[i] == out[j] ==> i == j
  {
    out := [];
    for c := 0 to count
      invariant |out| == c
      invariant forall i :: 0 <= i < c ==> fresh(out[i]) && out[i].Length == Words(n) && AllZero(out[i][..])
      invariant forall i, j :: 0 <= i < c && 0 <= j < c && out[i] == out[j] ==> i == j
    {
      hide AllZero;
      var b := NewBitmap(n);
      out := out + [b];
    }
  }

  method NewBitmap(n: nat) returns (b: array<Word>)
    ensures fresh(b) && b.Length == Words(n) && AllZero(b[..])
  {
    b := new Word[Words(n)];
    for k := 0 to Words(n)
      invariant AllZero(b[..k])
    {
      ghost var done := b[..k];
      b[k] := ZEROS;
      assert b[..k + 1] == done + [ZEROS];
    }
    assert b[..Words(n)] == b[..];
  }

  lemma NothingDone(t: Table, root: BoolNode, start: nat, hi: nat, ws: seq<Word>)
    requires AllZero(ws)
    ensures Partial(t, root, start, hi, {}, ws)
  {}

  /** With every chunk done, in whatever order, clearing the rows before lo in their word leaves
  exactly the answer. */
  lemma AllDone(t: Table, root: BoolNode, lo: nat, hi: nat, done: set<nat>, before: seq<Word>, after: seq<Word>)
    requires Partial(t, root, lo - lo % WORD, hi, done, before) && lo < hi
    requires forall c: nat :: lo - lo % WORD + CHUNK * c < hi ==> c in done
    requires |before| == |after| && forall k: nat, j: nat :: k < |after| && j < WORD ==>
               after[k][j] == (before[k][j] && !(k == lo / WORD && j < lo % WORD))
    ensures Answered(t, root, lo, hi, after)
  {
    hide BitOf;
    var start := lo - lo % WORD;
    forall k: nat, j: nat | k < |after| && j < WORD
      ensures after[k][j] == (lo <= WORD * k + j < hi && BitOf(t, root, WORD * k + j))
    {
      assert before[k][j] == (ChunkIn(k, start, done) && WORD * k + j < hi && BitOf(t, root, WORD * k + j));
      if start <= WORD * k && WORD * k + j < hi {
        var c := (WORD * k - start) / CHUNK;
        assert start + CHUNK * c < hi;
      }
    }
  }

  /** Clears the first r rows of one word. */
  method ClearBelow(out: array<Word>, at: nat, r: nat)
    requires at < out.Length && r <= WORD
    modifies out
    ensures forall k: nat, j: nat :: k < out.Length && j < WORD ==>
              out[k][j] == (old(out[..])[k][j] && !(k == at && j < r))
  {
    var word := out[at];
    for j := 0 to r
      invariant forall i :: 0 <= i < WORD ==> word[i] == (out[at][i] && !(i < j))
    {
      word := word[j := false];
    }
    out[at] := word;
  }

  /** Masks of several programs over rows lo0 to hi0, computed chunk by chunk in the order given: whatever that order,
  a bit is on if and only if its row lies between the bounds and the program's root holds there. */
  method EvalMany(t: Table, progs: seq<Program>, lo0: int, hi0: int, order: seq<nat>) returns (out: seq<array<Word>>)
    requires forall i :: 0 <= i < |progs| ==> ProgramFits(progs[i])
    requires forall c: nat ::
              (if lo0 < 0 then 0 else lo0 - lo0 % WORD) + CHUNK * c < (if hi0 < t.n then hi0 else t.n) <==> c in order
    ensures |out| == |progs| && forall i :: 0 <= i < |progs| ==> out[i].Length == Words(t.n)
    ensures forall i :: 0 <= i < |progs| ==>
              Answered(t, progs[i].root, if lo0 < 0 then 0 else lo0, if hi0 < t.n then hi0 else t.n, out[i][..])
  {
    hide BitOf, ProgramFits, Partial, Answered, AllZero;
    var lo, hi := if lo0 < 0 then 0 else lo0, if hi0 < t.n then hi0 else t.n;
    out := NewBitmaps(|progs|, t.n);
    var nf, nw := MostScratch(progs);
    if lo >= hi {
      forall i | 0 <= i < |progs|
        ensures Answered(t, progs[i].root, lo, hi, out[i][..]) { NothingInRange(t, progs[i].root, lo, hi, out[i][..]); }
      return;
    }
    var start: nat, end: nat := lo - lo % WORD, hi;
    var s := NewScratch(nf, nw);
    forall i | 0 <= i < |progs|
      ensures Partial(t, progs[i].root, start, end, {}, out[i][..]) {
        NothingDone(t, progs[i].root, start, end, out[i][..]);
      }
    RunAll(t, progs, out, s, start, end, order);
    ghost var done := ChunksOf(order);
    for i := 0 to |out|
      invariant forall j :: 0 <= j < i ==> Answered(t, progs[j].root, lo, hi, out[j][..])
      invariant forall j :: i <= j < |out| ==> Partial(t, progs[j].root, start, end, done, out[j][..])
    {
      ghost var before := out[i][..];
      ClearBelow(out[i], lo / WORD, lo % WORD);
      AllDone(t, progs[i].root, lo, end, done, before, out[i][..]);
    }
  }

  lemma NothingInRange(t: Table, root: BoolNode, lo: int, hi: int, ws: seq<Word>)
    requires AllZero(ws) && lo >= hi
    ensures Answered(t, root, lo, hi, ws)
  {}

  method RunAll(t: Table, progs: seq<Program>, out: seq<array<Word>>, s: Scratch, start: nat, hi: nat, order: seq<nat>)
    requires Separate(s) && |out| == |progs| && Apart(out, s, Words(t.n)) && hi <= t.n && start % WORD == 0
    requires forall i :: 0 <= i < |progs| ==> ProgramFits(progs[i]) && progs[i].nf <= |s.f| && progs[i].nw <= |s.w|
    requires forall i :: 0 <= i < |out| ==> Partial(t, progs[i].root, start, hi, {}, out[i][..])
    requires forall c :: c in order ==> start + CHUNK * c < hi
    modifies FreshOf(s, out)
    ensures forall i :: 0 <= i < |out| ==> Partial(t, progs[i].root, start, hi, ChunksOf(order), out[i][..])
  {
    hide Partial, ProgramFits, Separate;
    ghost var done: set<nat> := {};
    for k := 0 to |order|
      invariant done == ChunksOf(order[..k])
      invariant forall i :: 0 <= i < |out| ==> Partial(t, progs[i].root, start, hi, done, out[i][..])
    {
      assert order[k] in order;
      RunChunk(t, progs, out, s, start, hi, order[k], done);
      done := done + {order[k]};
      assert order[..k + 1] == order[..k] + [order[k]];
    }
    assert order[..|order|] == order;
  }

  /** A comparison of a column with a number, or with another column, is TRUE on the rows whose numbers compare so. */
  lemma ColumnsCompare(u: Unicode, t: Table, c: Cond, i: nat)
    requires Built(t) && Compilable(t, c) && i < t.n && c.CompareNum? && c.x.NumAttr?
    ensures c.y.NumLit? ==> (Value(u, c, RowAt(t, i)) == True <==> Stands(c.op, t.num[c.x.slot][i], c.y.v))
    ensures c.y.NumAttr? ==>
              (Value(u, c, RowAt(t, i)) == True <==> Stands(c.op, t.num[c.x.slot][i], t.num[c.y.slot][i]))
  {
    hide Holds, Stands;
    ComparesAsItStands(c.op, NumVal(c.x, RowAt(t, i)), NumVal(c.y, RowAt(t, i)));
  }

  /** A backtest's mask over rows [lo, hi): the rows in range on which the condition is TRUE. */
  method EvalRows(u: Unicode, h: Hasher, c: Cond, t: Table, lo: int, hi: int, order: seq<nat>)
    returns (mask: Option<array<Word>>)
    requires Built(t) && Sane(u)
    requires forall k: nat :: (if lo < 0 then 0 else lo - lo % WORD) + CHUNK * k < (if hi < t.n then hi else t.n) <==>
              k in order
    ensures mask.None? <==> !Compilable(t, c)
    ensures mask.Some? ==> mask.value.Length == Words(t.n)
    ensures mask.Some? ==>
              forall k: nat, j: nat :: k < mask.value.Length && j < WORD ==>
                mask.value[k][j] == (lo <= WORD * k + j < hi && WORD * k + j < t.n
                  && Value(u, c, RowAt(t, WORD * k + j)) == True)
    ensures mask.Some? ==>
              forall k: nat, j: nat :: k < mask.value.Length && j < WORD ==>
                mask.value[k][j] == (lo <= WORD * k + j < hi && WORD * k + j < t.n
                  && Says(u, c, RowAt(t, WORD * k + j), true))
    ensures mask.Some? && c.CompareNum? && c.x.NumAttr? && c.y.NumLit? ==>
              forall k: nat, j: nat :: k < mask.value.Length && j < WORD ==>
                mask.value[k][j] == (lo <= WORD * k + j < hi && WORD * k + j < t.n
                  && Stands(c.op, t.num[c.x.slot][WORD * k + j], c.y.v))
    ensures mask.Some? && c.CompareNum? && c.x.NumAttr? && c.y.NumAttr? ==>
              forall k: nat, j: nat :: k < mask.value.Length && j < WORD ==>
                mask.value[k][j] == (lo <= WORD * k + j < hi && WORD * k + j < t.n
                  && Stands(c.op, t.num[c.x.slot][WORD * k + j], t.num[c.y.slot][WORD * k + j]))
  {
    hide Built, Sane, Value, RowAt, BitOf, Says, Stands, Compilable;
    var p := CompileVector(u, h, c, t);
    if p.None? { return None; }
    var out := EvalMany(t, [p.value], lo, hi, order);
    mask := Some(out[0]);
    forall i: nat { SaysItsValue(u, c, RowAt(t, i), true); }
    if c.CompareNum? && c.x.NumAttr? {
      forall i: nat | i < t.n { ColumnsCompare(u, t, c, i); }
    }
  }
}
