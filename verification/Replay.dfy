/** Replay, the reference every other way of computing features must equal (internal/features/replay.go). */
module Replay {
  import opened Numbers
  import opened Domain
  import opened Velocity
  import opened Rows
  import opened Engine

  /** The first n payments are strictly increasing in (DT, TransactionID). */
  predicate Increasing(txns: seq<Txn>, n: nat)
    requires n <= |txns|
  {
    forall i :: 0 < i < n ==> PosOf(txns[i - 1]).Less(PosOf(txns[i]))
  }

  /** Every key's payments among the first n. */
  function TrailsOf(txns: seq<Txn>, n: nat): Key -> Trail
    requires n <= |txns|
  {
    k => TrailOf(k, txns, n)
  }

  /** The row of payment i: its own fields, and features of the payments before it. */
  function ReplayRow(cat: Catalog, txns: seq<Txn>, i: nat): Row
    requires i < |txns|
  {
    RowOf(cat, txns[i], PartsOf(TrailsOf(txns, i), txns[i]))
  }

  ghost predicate SameTrails(a: Key -> Trail, b: Key -> Trail) { forall k :: a(k) == b(k) }

  lemma SameTrailsSameParts(a: Key -> Trail, b: Key -> Trail, t: Txn)
    requires SameTrails(a, b)
    ensures PartsOf(a, t) == PartsOf(b, t)
  {
    hide PartOf, KeyOf;
    forall e: Entity ensures PartsOf(a, t)[e] == PartsOf(b, t)[e] {
      if KeyOf(t, e).Some? { assert a(KeyOf(t, e).value) == b(KeyOf(t, e).value); }
    }
  }

  lemma AppliedIsNext(txns: seq<Txn>, n: nat, from: Key -> Trail, to: Key -> Trail)
    requires n < |txns| && SameTrails(from, TrailsOf(txns, n)) && AppliedTo(from, txns[n], NUM_ENTITIES, to)
    ensures SameTrails(to, TrailsOf(txns, n + 1))
  {
    hide KeyOf;
    forall k ensures to(k) == TrailOf(k, txns, n + 1) {
      assert from(k) == TrailsOf(txns, n)(k);
    }
  }

  /** Drives history through the engine in order; a payment out of order stops it with its index. */
  method Replay(e: Engine, txns: seq<Txn>) returns (rows: seq<Row>, bad: Option<nat>)
    requires e.Valid() && e.orderly && SameTrails(e.trails, TrailsOf(txns, 0)) && (txns != [] ==> e.clock <= txns[0].dt)
    modifies e, e.keyed, e.keyed.m.Values
    ensures e.Valid()
    ensures if bad.None? then |rows| == |txns| && Increasing(txns, |txns|)
            else && bad.value == |rows| && 0 < |rows| < |txns|
                 && Increasing(txns, |rows|) && !PosOf(txns[|rows| - 1]).Less(PosOf(txns[|rows|]))
    ensures forall i :: 0 <= i < |rows| ==> rows[i] == ReplayRow(e.cat, txns, i)
  {
    hide ReplayRow, RowOf, PartsOf, AppliedTo, SameTrails, Engine.Valid;
    var num, str := new Num[|e.cat.num|], new string[|e.cat.str|];
    rows := [];
    for i := 0 to |txns|
      invariant e.Valid() && fresh(e.keyed.m.Values - old(e.keyed.m.Values))
      invariant |rows| == i && Increasing(txns, i)
      invariant e.orderly && SameTrails(e.trails, TrailsOf(txns, i))
      invariant if i > 0 then e.clock == txns[i - 1].dt else txns != [] ==> e.clock <= txns[0].dt
      invariant forall j :: 0 <= j < i ==> rows[j] == ReplayRow(e.cat, txns, j)
    {
      if i > 0 && !PosOf(txns[i - 1]).Less(PosOf(txns[i])) {
        return rows, Some(i);
      }
      ghost var from := e.trails;
      e.ScoreAndUpdate(txns[i], num, str);
      SameTrailsSameParts(from, TrailsOf(txns, i), txns[i]);
      AppliedIsNext(txns, i, from, e.trails);
      RowIsReplayRow(e.cat, txns, i, PartsOf(from, txns[i]));
      rows := rows + [Row(num[..], str[..])];
    }
    bad := None;
  }

  lemma RowIsReplayRow(cat: Catalog, txns: seq<Txn>, i: nat, parts: seq<seq<Numbers.Num>>)
    requires i < |txns| && parts == PartsOf(TrailsOf(txns, i), txns[i])
    ensures RowOf(cat, txns[i], parts) == ReplayRow(cat, txns, i)
  {}
}
