/** One window of the sketch: a ring of count-min tables, one a bucket, and their running sum
(internal/features/sketch.go). Counters are unbounded: the wrap of a 32-bit one is not represented. */
module CountMin {
  import opened Domain
  import opened Windows
  import B = BucketSpec

  /** One event: its key's hash, the bucket it is counted in, and the cells its key hashes to. */
  datatype Hit = Hit(key: nat, ev: Event, bucket: int, cells: seq<nat>)

  ghost predicate Distinct(cells: seq<nat>) { forall i, j :: 0 <= i < j < |cells| ==> cells[i] != cells[j] }

  ghost predicate CellsOk(cells: seq<nat>, n: nat) {
    cells != [] && Distinct(cells) && forall i :: 0 <= i < |cells| ==> cells[i] < n
  }

  // ---- what the tables count ---------------------------------------------------------------

  /** How many events of some buckets hit a cell, and what they add up to. */
  ghost function CountIn(log: seq<Hit>, c: nat, buckets: set<int>): nat {
    if log == [] then 0
    else CountIn(log[1..], c, buckets) + if log[0].bucket in buckets && c in log[0].cells then 1 else 0
  }

  ghost function SumIn(log: seq<Hit>, c: nat, buckets: set<int>): int {
    if log == [] then 0
    else SumIn(log[1..], c, buckets) + if log[0].bucket in buckets && c in log[0].cells then log[0].ev.milli else 0
  }

  lemma {:induction false} Apart(log: seq<Hit>, c: nat, a: set<int>, b: set<int>)
    requires a !! b
    ensures CountIn(log, c, a + b) == CountIn(log, c, a) + CountIn(log, c, b)
    ensures SumIn(log, c, a + b) == SumIn(log, c, a) + SumIn(log, c, b)
  {
    if log != [] { Apart(log[1..], c, a, b); }
  }

  /** Only the buckets that have been hit matter. */
  lemma {:induction false} SameHit(log: seq<Hit>, c: nat, a: set<int>, b: set<int>)
    requires forall i :: 0 <= i < |log| ==> (log[i].bucket in a <==> log[i].bucket in b)
    ensures CountIn(log, c, a) == CountIn(log, c, b) && SumIn(log, c, a) == SumIn(log, c, b)
  {
    if log != [] { SameHit(log[1..], c, a, b); }
  }

  lemma {:induction false} Never(log: seq<Hit>, c: nat, a: set<int>)
    requires forall i :: 0 <= i < |log| ==> log[i].bucket !in a
    ensures CountIn(log, c, a) == 0 && SumIn(log, c, a) == 0
  {
    if log != [] { Never(log[1..], c, a); }
  }

  lemma {:induction false} OneMore(log: seq<Hit>, x: Hit, c: nat, a: set<int>)
    ensures CountIn(log + [x], c, a) == CountIn(log, c, a) + (if x.bucket in a && c in x.cells then 1 else 0)
    ensures SumIn(log + [x], c, a) == SumIn(log, c, a) + (if x.bucket in a && c in x.cells then x.ev.milli else 0)
  {
    if log == [] {
      assert log + [x] == [x] && [x][1..] == [];
    } else {
      OneMore(log[1..], x, c, a);
      assert (log + [x])[1..] == log[1..] + [x];
    }
  }

  // ---- one key ------------------------------------------------------------------------------

  /** The events of one key. */
  ghost function Mine(log: seq<Hit>, key: nat): seq<Event> {
    if log == [] then [] else (if log[0].key == key then [log[0].ev] else []) + Mine(log[1..], key)
  }

  /** Every event is in the bucket of its time, and hits the cells of its key. */
  ghost predicate Filed(log: seq<Hit>, width: int, cellsOf: nat -> seq<nat>) {
    && width > 0
    && forall i :: 0 <= i < |log| ==>
         log[i].bucket == FloorDiv(log[i].ev.time, width) && log[i].cells == cellsOf(log[i].key)
  }

  ghost predicate NonNegative(log: seq<Hit>) { forall i :: 0 <= i < |log| ==> log[i].ev.milli >= 0 }

  /** Among the events of some buckets, only the key's hit the cell. */
  ghost predicate Alone(log: seq<Hit>, key: nat, c: nat, buckets: set<int>) {
    forall i :: 0 <= i < |log| && log[i].bucket in buckets && c in log[i].cells ==> log[i].key == key
  }

  predicate Between(first: int, b: int, last: int) { first <= b <= last }

  /** The buckets first to last. */
  ghost function Range(first: int, last: int): set<int> { set b: int | first <= b <= last && Between(first, b, last) }

  /** A cell of a key counts at least the key's own events from the first bucket's edge on, */
  lemma {:induction false} CellCovers(log: seq<Hit>, width: int, cellsOf: nat -> seq<nat>, key: nat, c: nat, first: int,
      last: int)
    requires Filed(log, width, cellsOf) && c in cellsOf(key)
    requires forall i :: 0 <= i < |log| ==> log[i].bucket <= last
    ensures CountAfter(Mine(log, key), B.Edge(width, first)) <= CountIn(log, c, Range(first, last))
    ensures NonNegative(log) ==> SumAfter(Mine(log, key), B.Edge(width, first)) <= SumIn(log, c, Range(first, last))
  {
    hide B.Edge, FloorDiv;
    if log != [] {
      CellCovers(log[1..], width, cellsOf, key, c, first, last);
      B.EdgeMeans(log[0].ev.time, width, first);
      FirstOfMine(log, key, B.Edge(width, first));
      FirstIn(log, c, first, last);
    }
  }

  /** and exactly those when no other key shares it. */
  lemma {:induction false} CellCoversAlone(log: seq<Hit>, width: int, cellsOf: nat -> seq<nat>, key: nat, c: nat,
      first: int, last: int)
    requires Filed(log, width, cellsOf) && c in cellsOf(key) && Alone(log, key, c, Range(first, last))
    requires forall i :: 0 <= i < |log| ==> log[i].bucket <= last
    ensures CountAfter(Mine(log, key), B.Edge(width, first)) == CountIn(log, c, Range(first, last))
    ensures SumAfter(Mine(log, key), B.Edge(width, first)) == SumIn(log, c, Range(first, last))
  {
    hide B.Edge, FloorDiv;
    if log != [] {
      CellCoversAlone(log[1..], width, cellsOf, key, c, first, last);
      B.EdgeMeans(log[0].ev.time, width, first);
      FirstOfMine(log, key, B.Edge(width, first));
      FirstIn(log, c, first, last);
      assert log[0].bucket in Range(first, last) && c in log[0].cells ==> log[0].key == key;
    }
  }

  lemma FirstOfMine(log: seq<Hit>, key: nat, cutoff: int)
    requires log != []
    ensures var own := log[0].key == key && log[0].ev.time > cutoff;
            && CountAfter(Mine(log, key), cutoff) == CountAfter(Mine(log[1..], key), cutoff) + (if own then 1 else 0)
            && SumAfter(Mine(log, key), cutoff) ==
              SumAfter(Mine(log[1..], key), cutoff) + (if own then log[0].ev.milli else 0)
  {
    var rest := Mine(log[1..], key);
    if log[0].key == key {
      assert Mine(log, key) == [log[0].ev] + rest;
      assert ([log[0].ev] + rest)[1..] == rest;
    } else {
      assert Mine(log, key) == rest;
    }
  }

  lemma FirstIn(log: seq<Hit>, c: nat, first: int, last: int)
    requires log != [] && log[0].bucket <= last
    ensures var own := log[0].bucket >= first && c in log[0].cells;
            && CountIn(log, c, Range(first, last)) == CountIn(log[1..], c, Range(first, last)) + (if own then 1 else 0)
            && SumIn(log, c, Range(first, last)) ==
              SumIn(log[1..], c, Range(first, last)) + (if own then log[0].ev.milli else 0)
  {}

  // ---- one table ---------------------------------------------------------------------------

  /** Per cell a count and a sum, and the cells that are not zero, each listed once. */
  datatype Cells = Cells(count: seq<int>, milli: seq<int>, dirty: seq<nat>)

  function NoCells(n: nat): Cells { Cells(seq(n, c => 0), seq(n, c => 0), []) }

  ghost predicate Sized(t: Cells, n: nat) { |t.count| == |t.milli| == n }

  ghost predicate DirtyOk(t: Cells, n: nat) {
    && Sized(t, n) && Distinct(t.dirty)
    && (forall i :: 0 <= i < |t.dirty| ==> t.dirty[i] < n)
    && (forall c: nat :: c < n ==>
          (c in t.dirty <==> t.count[c] > 0) && t.count[c] >= 0 && (t.count[c] == 0 ==> t.milli[c] == 0))
  }

  /** The table counts the events of some buckets. */
  ghost predicate Holds(t: Cells, n: nat, log: seq<Hit>, buckets: set<int>) {
    Sized(t, n) && forall c: nat :: c < n ==>
      t.count[c] == CountIn(log, c, buckets) && t.milli[c] == SumIn(log, c, buckets)
  }

  /** Subtracts a table from the sum, cell by cell of those it has touched. */
  method Subtract(sum0: Cells, t: Cells, n: nat) returns (sum: Cells)
    requires DirtyOk(t, n) && Sized(sum0, n)
    ensures Sized(sum, n)
    ensures forall c: nat :: c < n ==>
              sum.count[c] == sum0.count[c] - t.count[c] && sum.milli[c] == sum0.milli[c] - t.milli[c]
  {
    sum := sum0;
    for k := 0 to |t.dirty|
      invariant Sized(sum, n)
      invariant forall c: nat :: c < n ==>
                  if c in t.dirty[..k]
                  then sum.count[c] == sum0.count[c] - t.count[c] && sum.milli[c] == sum0.milli[c] - t.milli[c]
                  else sum.count[c] == sum0.count[c] && sum.milli[c] == sum0.milli[c]
    {
      var c := t.dirty[k];
      assert t.dirty[..k + 1] == t.dirty[..k] + [c];
      assert c !in t.dirty[..k];
      sum := sum.(count := sum.count[c := sum.count[c] - t.count[c]],
        milli := sum.milli[c := sum.milli[c] - t.milli[c]]);
    }
    assert t.dirty[..|t.dirty|] == t.dirty;
  }

  lemma Touched(t: Cells, n: nat, c: nat, milli: int, dirty: seq<nat>)
    requires DirtyOk(t, n) && c < n && dirty == if t.count[c] == 0 then t.dirty + [c] else t.dirty
    ensures DirtyOk(Cells(t.count[c := t.count[c] + 1], t.milli[c := t.milli[c] + milli], dirty), n)
  {}

  lemma DistinctCells(cells: seq<nat>)
    requires Distinct(cells)
    ensures forall k :: 0 <= k < |cells| ==> cells[k] !in cells[..k]
  {}

  /** Adds an event to a bucket's table and to the sum. */
  method Bump(t0: Cells, sum0: Cells, n: nat, cells: seq<nat>, milli: int) returns (t: Cells, sum: Cells)
    requires DirtyOk(t0, n) && Sized(sum0, n) && CellsOk(cells, n)
    ensures DirtyOk(t, n) && Sized(sum, n)
    ensures forall c: nat :: c < n ==> t.count[c] == t0.count[c] + (if c in cells then 1 else 0)
                                       && t.milli[c] == t0.milli[c] + (if c in cells then milli else 0)
    ensures forall c: nat :: c < n ==> sum.count[c] == sum0.count[c] + (if c in cells then 1 else 0)
                                       && sum.milli[c] == sum0.milli[c] + (if c in cells then milli else 0)
  {
    hide Distinct;
    DistinctCells(cells);
    t, sum := t0, sum0;
    for k := 0 to |cells|
      invariant DirtyOk(t, n) && Sized(sum, n)
      invariant forall c: nat :: c < n ==> t.count[c] == t0.count[c] + (if c in cells[..k] then 1 else 0)
                                           && t.milli[c] == t0.milli[c] + (if c in cells[..k] then milli else 0)
      invariant forall c: nat :: c < n ==> sum.count[c] == sum0.count[c] + (if c in cells[..k] then 1 else 0)
                                           && sum.milli[c] == sum0.milli[c] + (if c in cells[..k] then milli else 0)
    {
      var c := cells[k];
      assert cells[..k + 1] == cells[..k] + [c] && c !in cells[..k];
      var dirty := if t.count[c] == 0 then t.dirty + [c] else t.dirty;
      Touched(t, n, c, milli, dirty);
      t := Cells(t.count[c := t.count[c] + 1], t.milli[c := t.milli[c] + milli], dirty);
      sum := sum.(count := sum.count[c := sum.count[c] + 1], milli := sum.milli[c := sum.milli[c] + milli]);
    }
    assert cells[..|cells|] == cells;
  }

  // ---- the ring -----------------------------------------------------------------------------

  /** The slots of a ring with the bucket each one stands for, and the sum of them all. */
  datatype Slots = Slots(tables: seq<Cells>, idx: seq<Option<int>>, sum: Cells)

  ghost function Live(idx: seq<Option<int>>): set<int> { set i | 0 <= i < |idx| && idx[i].Some? :: idx[i].value }

  ghost function Bucket(idx: Option<int>): set<int> { if idx.Some? then {idx.value} else {} }

  /** Buckets sit in their slots. */
  ghost predicate Placed(idx: seq<Option<int>>) {
    idx != [] && forall i :: 0 <= i < |idx| && idx[i].Some? ==> idx[i].value % |idx| == i
  }

  /** Every slot counts its bucket, and the sum counts them all. */
  ghost predicate Counts(s: Slots, n: nat, log: seq<Hit>) {
    && |s.tables| == |s.idx| && Placed(s.idx) && Holds(s.sum, n, log, Live(s.idx))
    && forall i :: 0 <= i < |s.tables| ==> DirtyOk(s.tables[i], n) && Holds(s.tables[i], n, log, Bucket(s.idx[i]))
  }

  /** Nothing is later than last, and what is live is what there is from first to last. */
  ghost predicate Reaches(idx: seq<Option<int>>, log: seq<Hit>, first: int, last: int) {
    && (forall b :: b in Live(idx) ==> first <= b <= last)
    && (forall i :: 0 <= i < |log| ==> log[i].bucket <= last && (log[i].bucket >= first ==> log[i].bucket in Live(idx)))
  }

  lemma LiveWithout(idx: seq<Option<int>>, i: nat)
    requires Placed(idx) && i < |idx|
    ensures Placed(idx[i := None])
    ensures Live(idx[i := None]) == Live(idx) - Bucket(idx[i])
    ensures Live(idx) == Live(idx[i := None]) + Bucket(idx[i]) && Live(idx[i := None]) !! Bucket(idx[i])
    ensures forall b :: b in Live(idx[i := None]) <==> b in Live(idx) && b % |idx| != i
  {
    var r := idx[i := None];
    forall b | b in Live(idx) && b !in Bucket(idx[i]) ensures b in Live(r) {
      var j :| 0 <= j < |idx| && idx[j].Some? && idx[j].value == b;
      assert r[j] == idx[j];
    }
    forall b | b in Live(r) ensures b in Live(idx) && b !in Bucket(idx[i]) && b % |idx| != i {
      var j :| 0 <= j < |idx| && r[j].Some? && r[j].value == b;
      assert r[j] == idx[j];
    }
    forall b | b in Live(idx) && b % |idx| != i ensures b in Live(r) {
      var j :| 0 <= j < |idx| && idx[j].Some? && idx[j].value == b;
    }
  }

  lemma LiveWith(idx: seq<Option<int>>, b: int)
    requires Placed(idx) && idx[b % |idx|].None?
    ensures Placed(idx[b % |idx| := Some(b)])
    ensures Live(idx[b % |idx| := Some(b)]) == Live(idx) + {b} && b !in Live(idx)
  {
    var i := b % |idx|;
    var r := idx[i := Some(b)];
    LiveWithout(r, i);
    assert r[i := None] == idx;
  }

  /** Empties slot i, taking its table out of the sum. */
  method Clear(s: Slots, n: nat, i: nat, ghost log: seq<Hit>) returns (r: Slots)
    requires Counts(s, n, log) && i < |s.idx|
    ensures Counts(r, n, log) && r.idx == s.idx[i := None]
  {
    var sum := Subtract(s.sum, s.tables[i], n);
    r := Slots(s.tables[i := NoCells(n)], s.idx[i := None], sum);
    LiveWithout(s.idx, i);
    forall c: nat | c < n
      ensures sum.count[c] == CountIn(log, c, Live(r.idx)) && sum.milli[c] == SumIn(log, c, Live(r.idx))
    {
      Apart(log, c, Live(r.idx), Bucket(s.idx[i]));
    }
    forall c: nat | c < n ensures CountIn(log, c, {}) == 0 && SumIn(log, c, {}) == 0 { Never(log, c, {}); }
  }

  /** Gives an empty slot to a bucket nothing has hit yet. */
  lemma Opens(s: Slots, n: nat, b: int, log: seq<Hit>)
    requires Counts(s, n, log) && s.idx[b % |s.idx|].None?
    requires forall i :: 0 <= i < |log| ==> log[i].bucket != b
    ensures Counts(s.(idx := s.idx[b % |s.idx| := Some(b)]), n, log)
  {
    var r := s.(idx := s.idx[b % |s.idx| := Some(b)]);
    LiveWith(s.idx, b);
    forall c: nat | c < n
      ensures CountIn(log, c, Live(r.idx)) == CountIn(log, c, Live(s.idx))
      ensures SumIn(log, c, Live(r.idx)) == SumIn(log, c, Live(s.idx))
      ensures CountIn(log, c, {b}) == CountIn(log, c, {}) && SumIn(log, c, {b}) == SumIn(log, c, {})
    {
      SameHit(log, c, Live(r.idx), Live(s.idx));
      SameHit(log, c, {b}, {});
    }
  }

  /** Emptying the slot of bucket b gives up just the bucket a turn before it. */
  lemma Turns(idx: seq<Option<int>>, log: seq<Hit>, cur: int, span: nat, b: int)
    requires |idx| == span + 1 && Placed(idx) && cur < b <= cur + span && Reaches(idx, log, b - 1 - span, cur)
    ensures Reaches(idx[b % (span + 1) := None], log, b - span, cur)
  {
    hide Live;
    LiveWithout(idx, b % (span + 1));
    forall x | x in Live(idx) ensures x % (span + 1) == b % (span + 1) <==> x == b - 1 - span {
      SameSlot(x, b, span);
    }
  }

  /** Buckets less than a turn apart have different slots; a turn apart, the same one. */
  lemma SameSlot(x: int, b: int, span: nat)
    requires b - 1 - span <= x < b
    ensures x % (span + 1) == b % (span + 1) <==> x == b - 1 - span
  {
    var n := span + 1;
    SameRemainder(x, b, n);
    Multiples(b / n - x / n, n);
  }

  /** The remainders differ by the difference less a multiple, and by less than n. */
  lemma SameRemainder(x: int, b: int, n: int)
    requires n > 0
    ensures b - x == (b / n - x / n) * n + (b % n - x % n)
  {
    var p, q := x / n, b / n;
    assert x == p * n + x % n && b == q * n + b % n;
    assert (q - p) * n == q * n - p * n;
  }

  lemma Multiples(k: int, n: int)
    requires n > 0
    ensures k >= 1 ==> k * n >= n
    ensures k >= 2 ==> k * n >= 2 * n
    ensures k <= 0 ==> k * n <= 0
    ensures k == 1 ==> k * n == n
    ensures k == 0 ==> k * n == 0
  {}

  method ClearAll(s0: Slots, n: nat, ghost log: seq<Hit>) returns (s: Slots)
    requires Counts(s0, n, log)
    ensures Counts(s, n, log) && |s.idx| == |s0.idx| && Live(s.idx) == {}
    ensures forall j :: 0 <= j < |s.idx| ==> s.idx[j].None?
  {
    s := s0;
    for i := 0 to |s.tables|
      invariant |s.idx| == |s.tables| == |s0.idx| && Counts(s, n, log)
      invariant forall j :: 0 <= j < i ==> s.idx[j].None?
    {
      s := Clear(s, n, i, log);
    }
    NoneLive(s.idx);
  }

  /** Empties the slots of the buckets after cur up to bn. */
  method ClearTo(s0: Slots, n: nat, cur: int, bn: int, ghost log: seq<Hit>) returns (s: Slots)
    requires Counts(s0, n, log) && cur < bn < cur + |s0.idx|
    requires Reaches(s0.idx, log, cur - (|s0.idx| - 1), cur)
    ensures Counts(s, n, log) && |s.idx| == |s0.idx| && s.idx[bn % |s.idx|].None?
    ensures Reaches(s.idx, log, bn - (|s0.idx| - 1), cur)
  {
    hide Reaches, Live, Placed, Holds, DirtyOk;
    s := s0;
    for b := cur + 1 to bn + 1
      invariant |s.idx| == |s0.idx| && Counts(s, n, log)
      invariant Reaches(s.idx, log, b - 1 - (|s0.idx| - 1), cur)
      invariant b - 1 > cur ==> s.idx[(b - 1) % |s.idx|].None?
    {
      Turns(s.idx, log, cur, |s0.idx| - 1, b);
      s := Clear(s, n, b % |s.idx|, log);
    }
  }

  /** Emptied, the ring reaches from any later bucket on. */
  lemma ReachesNothing(idx: seq<Option<int>>, log: seq<Hit>, from: int, last: int)
    requires Live(idx) == {} && last < from && forall i :: 0 <= i < |log| ==> log[i].bucket <= last
    ensures Reaches(idx, log, from, last)
  {}

  lemma NoneLive(idx: seq<Option<int>>)
    requires forall i :: 0 <= i < |idx| ==> idx[i].None?
    ensures Live(idx) == {}
  {}

  /** A new bucket, after all that have been hit, takes its empty slot. */
  lemma Begins(s: Slots, n: nat, last: int, bn: int, log: seq<Hit>)
    requires Counts(s, n, log) && s.idx[bn % |s.idx|].None? && last < bn
    requires Reaches(s.idx, log, bn - (|s.idx| - 1), last)
    ensures var idx := s.idx[bn % |s.idx| := Some(bn)];
            Counts(s.(idx := idx), n, log) && Reaches(idx, log, bn - (|s.idx| - 1), bn) && bn in Live(idx)
  {
    hide Live, Holds, DirtyOk, CountIn, SumIn;
    Opens(s, n, bn, log);
    LiveWith(s.idx, bn);
  }

  /** What is live from a bucket on counts all there is from there. */
  lemma LiveIsRange(idx: seq<Option<int>>, log: seq<Hit>, first: int, last: int, from: int, left: set<int>, c: nat)
    requires Reaches(idx, log, first, last) && first <= from && left == (set b | b in Live(idx) && b >= from)
    ensures CountIn(log, c, left) == CountIn(log, c, Range(from, last))
    ensures SumIn(log, c, left) == SumIn(log, c, Range(from, last))
  {
    hide Live;
    SameHit(log, c, left, Range(from, last));
  }

  lemma LivePlace(idx: seq<Option<int>>, b: int)
    requires Placed(idx) && b in Live(idx)
    ensures idx[b % |idx|] == Some(b)
  {}

  lemma Monotone(a: int, b: int, width: int)
    requires width > 0 && a <= b
    ensures FloorDiv(a, width) <= FloorDiv(b, width)
  {
    B.EdgeMeans(a, width, FloorDiv(a, width));
    B.EdgeMeans(b, width, FloorDiv(a, width));
  }

  /** A hit on a live bucket, in its table and in the sum. */
  lemma Bumps(s: Slots, r: Slots, n: nat, log: seq<Hit>, x: Hit)
    requires Counts(s, n, log) && x.bucket in Live(s.idx)
    requires r.idx == s.idx && |r.tables| == |s.tables|
    requires var i := x.bucket % |s.idx|;
             && (forall j :: 0 <= j < |s.tables| && j != i ==> r.tables[j] == s.tables[j])
             && DirtyOk(r.tables[i], n) && More(s.tables[i], r.tables[i], n, x)
    requires Sized(r.sum, n) && More(s.sum, r.sum, n, x)
    ensures Counts(r, n, log + [x])
  {
    hide Live, CountIn, SumIn, Distinct;
    LivePlace(s.idx, x.bucket);
    forall j | 0 <= j < |s.tables| ensures Holds(r.tables[j], n, log + [x], Bucket(r.idx[j])) {
      HoldsMore(s.tables[j], r.tables[j], n, log, x, Bucket(s.idx[j]));
    }
    HoldsMore(s.sum, r.sum, n, log, x, Live(s.idx));
  }

  /** One event more in the cells it hits. */
  ghost predicate More(t: Cells, r: Cells, n: nat, x: Hit)
    requires Sized(t, n) && Sized(r, n)
  {
    forall c: nat :: c < n ==>
      r.count[c] == t.count[c] + (if c in x.cells then 1 else 0)
        && r.milli[c] == t.milli[c] + (if c in x.cells then x.ev.milli else 0)
  }

  lemma HoldsMore(t: Cells, r: Cells, n: nat, log: seq<Hit>, x: Hit, buckets: set<int>)
    requires Holds(t, n, log, buckets) && Sized(r, n)
    requires if x.bucket in buckets then More(t, r, n, x) else r == t
    ensures Holds(r, n, log + [x], buckets)
  {
    hide CountIn, SumIn;
    forall c: nat | c < n
      ensures r.count[c] == CountIn(log + [x], c, buckets) && r.milli[c] == SumIn(log + [x], c, buckets)
    {
      OneMore(log, x, c, buckets);
    }
  }

  // ---- reading ------------------------------------------------------------------------------

  ghost predicate LeastCount(log: seq<Hit>, cs: seq<nat>, buckets: set<int>, count: int) {
    (exists c :: c in cs && count == CountIn(log, c, buckets)) && forall c :: c in cs ==>
      count <= CountIn(log, c, buckets)
  }

  ghost predicate LeastSum(log: seq<Hit>, cs: seq<nat>, buckets: set<int>, milli: int) {
    (exists c :: c in cs && milli == SumIn(log, c, buckets)) && forall c :: c in cs ==> milli <= SumIn(log, c, buckets)
  }

  /** The least count and the least sum of some cells. */
  ghost predicate Least(log: seq<Hit>, cs: seq<nat>, buckets: set<int>, count: int, milli: int) {
    LeastCount(log, cs, buckets, count) && LeastSum(log, cs, buckets, milli)
  }

  lemma NothingHit(cs: seq<nat>, buckets: set<int>)
    requires cs != []
    ensures Least([], cs, buckets, 0, 0)
  {
    assert cs[0] in cs;
    assert CountIn([], cs[0], buckets) == 0 && SumIn([], cs[0], buckets) == 0;
  }

  lemma OneCell(log: seq<Hit>, c: nat, buckets: set<int>)
    ensures Least(log, [c], buckets, CountIn(log, c, buckets), SumIn(log, c, buckets))
  {
    hide CountIn, SumIn;
    assert c in [c];
  }

  lemma LeastMore(log: seq<Hit>, cs: seq<nat>, buckets: set<int>, count: int, milli: int, c: nat)
    requires Least(log, cs, buckets, count, milli)
    ensures var n, m := CountIn(log, c, buckets), SumIn(log, c, buckets);
            Least(log, cs + [c], buckets, if n < count then n else count, if m < milli then m else milli)
  {
    LeastCountMore(log, cs, buckets, count, c);
    LeastSumMore(log, cs, buckets, milli, c);
  }

  lemma LeastCountMore(log: seq<Hit>, cs: seq<nat>, buckets: set<int>, count: int, c: nat)
    requires LeastCount(log, cs, buckets, count)
    ensures LeastCount(log, cs + [c], buckets, if CountIn(log, c, buckets) < count then CountIn(log, c, buckets)
              else count)
  {
    hide CountIn;
    var d :| d in cs && count == CountIn(log, d, buckets);
    assert c in cs + [c] && d in cs + [c];
  }

  lemma LeastSumMore(log: seq<Hit>, cs: seq<nat>, buckets: set<int>, milli: int, c: nat)
    requires LeastSum(log, cs, buckets, milli)
    ensures LeastSum(log, cs + [c], buckets, if SumIn(log, c, buckets) < milli then SumIn(log, c, buckets) else milli)
  {
    hide SumIn;
    var d :| d in cs && milli == SumIn(log, d, buckets);
    assert c in cs + [c] && d in cs + [c];
  }

  lemma MaxBucket(a: int, b: int, width: int)
    requires width > 0
    ensures FloorDiv(Max(a, b), width) == Max(FloorDiv(a, width), FloorDiv(b, width))
  {
    if a < b { Monotone(a, b, width); } else { Monotone(b, a, width); }
  }

  ghost function LiveFrom(idx: seq<Option<int>>, from: int): set<int> { set b | b in Live(idx) && b >= from }

  /** Bucket b's table, if it has one, is all that the buckets from b on have beside those after it. */
  lemma TakeOut(s: Slots, n: nat, c: nat, b: int, log: seq<Hit>)
    requires Counts(s, n, log) && c < n
    ensures var i := b % |s.idx|;
            var k, m := if s.idx[i] == Some(b) then s.tables[i].count[c]
              else 0, if s.idx[i] == Some(b) then s.tables[i].milli[c] else 0;
            && CountIn(log, c, LiveFrom(s.idx, b)) == CountIn(log, c, LiveFrom(s.idx, b + 1)) + k
            && SumIn(log, c, LiveFrom(s.idx, b)) == SumIn(log, c, LiveFrom(s.idx, b + 1)) + m
  {
    hide CountIn, SumIn, Live;
    var i := b % |s.idx|;
    if s.idx[i] == Some(b) {
      LiveHas(s.idx, i);
      Apart(log, c, LiveFrom(s.idx, b + 1), {b});
      assert LiveFrom(s.idx, b) == LiveFrom(s.idx, b + 1) + {b};
    } else {
      if b in Live(s.idx) { LivePlace(s.idx, b); }
      assert LiveFrom(s.idx, b) == LiveFrom(s.idx, b + 1);
    }
  }

  lemma LiveHas(idx: seq<Option<int>>, i: nat)
    requires i < |idx| && idx[i].Some?
    ensures idx[i].value in Live(idx)
  {}

  /** One cell of the sum, less the buckets lo to hi that have left the window. */
  method CellAt(s: Slots, n: nat, c: nat, lo: int, hi: int, last: int, ghost from: int, ghost log: seq<Hit>)
    returns (count: int, milli: int)
    requires Counts(s, n, log) && c < n && lo <= last && Reaches(s.idx, log, lo, last)
    requires from == (if hi < lo then lo else if hi < last then hi + 1 else from) && (hi >= last ==> from > last)
    ensures count == CountIn(log, c, Range(from, last)) && milli == SumIn(log, c, Range(from, last))
  {
    hide CountIn, SumIn, Live;
    count, milli := s.sum.count[c], s.sum.milli[c];
    assert LiveFrom(s.idx, lo) == Live(s.idx);
    for b := lo to (if hi < lo then lo else hi + 1)
      invariant count == CountIn(log, c, LiveFrom(s.idx, b)) && milli == SumIn(log, c, LiveFrom(s.idx, b))
    {
      var i := b % |s.idx|;
      TakeOut(s, n, c, b, log);
      if s.idx[i] == Some(b) { count, milli := count - s.tables[i].count[c], milli - s.tables[i].milli[c]; }
    }
    assert LiveFrom(s.idx, if hi < lo then lo else hi + 1) == LiveFrom(s.idx, from);
    LiveIsRange(s.idx, log, lo, last, from, LiveFrom(s.idx, from), c);
  }

  /** One window of the sketch: span + 1 bucket tables and their sum, and the newest time it has seen. */
  class CmsRing {
    const width: int
    const span: nat
    const cells: nat
    ghost const cellsOf: nat -> seq<nat>
    var slots: Slots
    var cur: Option<int>
    var latest: Option<int>
    ghost var log: seq<Hit>

    ghost predicate Valid()
      reads this
    {
      && width > 0 && |slots.idx| == span + 1
      && (forall key :: CellsOk(cellsOf(key), cells))
      && Counts(slots, cells, log) && Filed(log, width, cellsOf)
      && (cur.None? ==> log == [] && Live(slots.idx) == {})
      && (cur.Some? ==> Reaches(slots.idx, log, cur.value - span, cur.value) && cur.value in Live(slots.idx))
      && (latest.Some? <==> cur.Some?) && (latest.Some? ==> cur.value == FloorDiv(latest.value, width))
    }

    constructor (width: int, span: nat, cells: nat, ghost cellsOf: nat -> seq<nat>)
      requires width > 0 && forall key :: CellsOk(cellsOf(key), cells)
      ensures Valid() && log == [] && latest.None?
      ensures this.width == width && this.span == span && this.cells == cells && this.cellsOf == cellsOf
    {
      this.width, this.span, this.cells, this.cellsOf := width, span, cells, cellsOf;
      slots := Slots(seq(span + 1, i => NoCells(cells)), seq(span + 1, i => None), NoCells(cells));
      cur, latest, log := None, None, [];
    }

    /** Makes bn the newest bucket, emptying the slots of those that leave the ring. */
    method Advance(bn: int)
      requires Valid()
      modifies this`slots, this`cur
      ensures |slots.idx| == span + 1 && Counts(slots, cells, log)
      ensures cur == Some(if old(cur).Some? then Max(old(cur).value, bn) else bn)
      ensures Reaches(slots.idx, log, cur.value - span, cur.value) && cur.value in Live(slots.idx)
    {
      if cur.Some? && bn <= cur.value { return; }
      var s := slots;
      ghost var last := if cur.Some? then cur.value else bn - span - 1;
      if cur.None? || bn - cur.value > span {
        s := ClearAll(s, cells, log);
        ReachesNothing(s.idx, log, bn - span, last);
      } else {
        s := ClearTo(s, cells, cur.value, bn, log);
      }
      Begins(s, cells, last, bn, log);
      slots, cur := s.(idx := s.idx[bn % (span + 1) := Some(bn)]), Some(bn);
    }

    /** Counts an event in the newest bucket. */
    method Add(key: nat, cs: seq<nat>, ev: Event)
      requires |slots.idx| == span + 1 && Counts(slots, cells, log) && CellsOk(cs, cells)
      requires cur.Some? && cur.value in Live(slots.idx)
      modifies this`slots, this`log
      ensures log == old(log) + [Hit(key, ev, cur.value, cs)] && slots.idx == old(slots.idx)
      ensures Counts(slots, cells, log)
    {
      var i := cur.value % (span + 1);
      LivePlace(slots.idx, cur.value);
      var t, sum := Bump(slots.tables[i], slots.sum, cells, cs, ev.milli);
      var after := Slots(slots.tables[i := t], slots.idx, sum);
      Bumps(slots, after, cells, log, Hit(key, ev, cur.value, cs));
      log := log + [Hit(key, ev, cur.value, cs)];
      slots := after;
    }

    /** Records an event; one before the newest time is recorded at that time. */
    method Record(key: nat, cs: seq<nat>, ev0: Event)
      requires Valid() && cs == cellsOf(key)
      modifies this
      ensures Valid()
      ensures var at := if old(latest).Some? then Max(old(latest).value, ev0.time) else ev0.time;
              latest == Some(at) && log == old(log) + [Hit(key, ev0.(time := at), FloorDiv(at, width), cs)]
    {
      hide Counts, Live, CountIn, SumIn;
      var ev := if latest.Some? && ev0.time < latest.value then ev0.(time := latest.value) else ev0;
      if latest.Some? { Monotone(latest.value, ev.time, width); }
      Advance(FloorDiv(ev.time, width));
      latest := Some(ev.time);
      Add(key, cs, ev);
    }

    /** The oldest bucket of the window at now. */
    ghost function Oldest(now: int): int
      requires Valid()
      reads this
    {
      FloorDiv(if latest.Some? then Max(latest.value, now) else now, width) - span
    }

    /** The newest bucket; any will do when nothing has been recorded. */
    ghost function Newest(): int
      reads this
    {
      if cur.Some? then cur.value else 0
    }

    /** Reads a key's count and sum at now: the least over its cells. */
    method Estimate(cs: seq<nat>, now: int) returns (count: int, milli: int)
      requires Valid() && CellsOk(cs, cells)
      ensures Least(log, cs, Range(Oldest(now), Newest()), count, milli)
    {
      hide Counts, Reaches, CountIn, SumIn, LeastCount, LeastSum, Range, Live, Filed, Distinct;
      if cur.None? {
        NothingHit(cs, Range(Oldest(now), Newest()));
        return 0, 0;
      }
      var bn := FloorDiv(now, width);
      var lo, hi := cur.value - span, if cur.value < bn - span - 1 then cur.value else bn - span - 1;
      MaxBucket(latest.value, now, width);
      count, milli := CellAt(slots, cells, cs[0], lo, hi, cur.value, Oldest(now), log);
      OneCell(log, cs[0], Range(Oldest(now), Newest()));
      assert cs[..1] == [cs[0]];
      for k := 1 to |cs|
        invariant Least(log, cs[..k], Range(Oldest(now), Newest()), count, milli)
      {
        var n, m := CellAt(slots, cells, cs[k], lo, hi, cur.value, Oldest(now), log);
        LeastMore(log, cs[..k], Range(Oldest(now), Newest()), count, milli, cs[k]);
        assert cs[..k + 1] == cs[..k] + [cs[k]];
        count, milli := if n < count then n else count, if m < milli then m else milli;
      }
      assert cs[..|cs|] == cs;
    }
  }

  /** A read never undercounts a key (nor its sum, where no amount is negative): it counts all of the key's own
  events of the window, and at most a bucket's worth of older ones beside other keys' that share every cell. With
  a cell no other key shares, the count is exactly the key's own from the oldest bucket's edge on. */
  lemma NeverUndercounts(log: seq<Hit>, width: int, span: nat, cellsOf: nat -> seq<nat>, key: nat, at: int, last: int,
      count: int, milli: int)
    requires width > 0 && Filed(log, width, cellsOf) && forall i :: 0 <= i < |log| ==> log[i].bucket <= last
    requires var buckets := Range(FloorDiv(at, width) - span, last); Least(log, cellsOf(key), buckets, count, milli)
    ensures var own, edge := Mine(log, key), B.Edge(width, FloorDiv(at, width) - span);
            && at - span * width - width <= edge < at - span * width
            && CountAfter(own, at - span * width) <= CountAfter(own, edge) <= count
            && (NonNegative(log) ==> SumAfter(own, at - span * width) <= SumAfter(own, edge) <= milli)
            && ((exists c :: c in cellsOf(key) && Alone(log, key, c, Range(FloorDiv(at, width) - span, last))) ==>
                  count == CountAfter(own, edge) && (NonNegative(log) ==> milli == SumAfter(own, edge)))
  {
    var first := FloorDiv(at, width) - span;
    var buckets := Range(first, last);
    var own, edge := Mine(log, key), B.Edge(width, first);
    EdgeOfWindow(at, width, span);
    hide B.Edge, CountIn, SumIn, Alone, Filed;
    forall c | c in cellsOf(key)
      ensures CountAfter(own, edge) <= CountIn(log, c, buckets)
      ensures NonNegative(log) ==> SumAfter(own, edge) <= SumIn(log, c, buckets)
      ensures Alone(log, key, c, buckets) ==>
                CountAfter(own, edge) == CountIn(log, c, buckets) && SumAfter(own, edge) == SumIn(log, c, buckets)
    {
      CellCovers(log, width, cellsOf, key, c, first, last);
      if Alone(log, key, c, buckets) { CellCoversAlone(log, width, cellsOf, key, c, first, last); }
    }
    B.LaterCutoff(own, edge, at - span * width);
    if NonNegative(log) {
      MineNonNegative(log, key);
      LaterSum(own, edge, at - span * width);
    }
  }

  lemma EdgeOfWindow(at: int, width: int, span: nat)
    requires width > 0
    ensures at - span * width - width <= B.Edge(width, FloorDiv(at, width) - span) < at - span * width
  {
    var q := at / width;
    assert q * width <= at < q * width + width;
    assert (q - span) * width == q * width - span * width;
  }

  lemma {:induction false} MineNonNegative(log: seq<Hit>, key: nat)
    requires NonNegative(log)
    ensures forall i :: 0 <= i < |Mine(log, key)| ==> Mine(log, key)[i].milli >= 0
  {
    if log != [] { MineNonNegative(log[1..], key); }
  }

  lemma {:induction false} LaterSum(evs: seq<Event>, early: int, late: int)
    requires early <= late && forall i :: 0 <= i < |evs| ==> evs[i].milli >= 0
    ensures SumAfter(evs, late) <= SumAfter(evs, early)
  {
    if evs != [] { LaterSum(evs[1..], early, late); }
  }
}
