/** The joiner of one parts partition, proved against Joining (internal/stream/join.go). */
module JoinerTask {
  import opened Numbers
  import opened Domain
  import opened Rows
  import opened Engine
  import J = Joining
  import P = Parts

  /** Writes an entity's values, in EntitySlots order, into its slots. */
  method PutValues(cat: Catalog, s: Slots, e: Entity, values: seq<Num>, num: array<Num>)
    requires Complete(cat) && s.EntityFit(cat, e) && num.Length == |cat.num| && |values| == Width(e)
    modifies num
    ensures Written(cat, e, values, Width(e), old(num[..]), num[..])
  {
    ghost var before := num[..];
    StartsWritten(cat, e, values, before);
    for k := 0 to Width(e)
      invariant Written(cat, e, values, k, before, num[..])
    {
      hide Written, Complete;
      PutFeature(cat, e, k, s.vel[e][k], values[k], num, values, before);
    }
  }

  // ---- snapshots -----------------------------------------------------------------------

  /** A list that names every key of a map with its value. */
  ghost predicate Lists<K(!new), V>(items: seq<(K, V)>, m: map<K, V>) {
    && (forall i :: 0 <= i < |items| ==> items[i].0 in m && m[items[i].0] == items[i].1)
    && (forall k :: k in m ==> exists i :: 0 <= i < |items| && items[i].0 == k)
  }

  method List<K(!new, ==), V>(m: map<K, V>) returns (items: seq<(K, V)>)
    ensures Lists(items, m)
  {
    items := [];
    var keys := m.Keys;
    while keys != {}
      invariant keys <= m.Keys
      invariant forall i :: 0 <= i < |items| ==> items[i].0 in m && m[items[i].0] == items[i].1
      invariant forall k :: k in m && k !in keys ==> exists i :: 0 <= i < |items| && items[i].0 == k
      decreases keys
    {
      var k :| k in keys;
      ghost var before := items;
      items, keys := items + [(k, m[k])], keys - {k};
      assert items[|before|].0 == k && forall i :: 0 <= i < |before| ==> items[i] == before[i];
    }
  }

  method Fill<K(!new, ==), V>(items: seq<(K, V)>, ghost m: map<K, V>) returns (out: map<K, V>)
    ensures Lists(items, m) ==> out == m
  {
    out := map[];
    for i := 0 to |items|
      invariant forall j :: 0 <= j < i ==> items[j].0 in out
      invariant Lists(items, m) ==> forall k :: k in out ==> k in m && out[k] == m[k]
    {
      out := out[items[i].0 := items[i].1];
    }
  }

  /** One pending payment: its base, and per entity its values if they have come. */
  datatype Waiting = Waiting(base: Option<P.Msg>, values: seq<Option<seq<Num>>>)

  datatype Image = Image(
    decided: nat, dups: nat, srcs: seq<(nat, nat)>, aggs: seq<(nat, nat)>, pending: seq<(string, Waiting)>)

  /** The widest value list a snapshot may hold. */
  const MAX_WIDTH := 64

  predicate Shows(x: Waiting, p: J.Pending) {
    x.base == p.base && |x.values| == NUM_ENTITIES
    && forall e: Entity {:trigger p.values[e]} {:trigger x.values[e]} :: x.values[e] == if e in p.values
      then Some(p.values[e]) else None
  }

  /** What the decoder accepts of a pending payment: no entity part as its base, no over-wide values. */
  predicate Readable(x: Waiting) {
    && (x.base.Some? ==> x.base.value.Base?)
    && forall e :: 0 <= e < |x.values| && x.values[e].Some? ==> |x.values[e].value| <= MAX_WIDTH
  }

  method Write(p: J.Pending) returns (x: Waiting)
    ensures Shows(x, p)
  {
    var values: seq<Option<seq<Num>>> := [];
    for e := 0 to NUM_ENTITIES
      invariant |values| == e
      invariant forall f: Entity :: f < e ==> values[f] == if f in p.values then Some(p.values[f]) else None
    {
      values := values + [if e in p.values then Some(p.values[e]) else None];
    }
    x := Waiting(p.base, values);
  }

  method ReadBack(x: Waiting, ghost p: J.Pending) returns (q: J.Pending)
    ensures Shows(x, p) ==> q == p
  {
    var values: map<Entity, seq<Num>> := map[];
    for e := 0 to NUM_ENTITIES
      invariant Shows(x, p) ==> forall f: Entity :: f in values <==> f < e && f in p.values
      invariant Shows(x, p) ==> forall f: Entity :: f in values ==> values[f] == p.values[f]
    {
      if e < |x.values| && x.values[e].Some? { values := values[e := x.values[e].value]; }
    }
    q := J.Pending(x.base, values);
  }

  class Joiner {
    const d: J.Decider
    const slots: Slots
    const num: array<Num> // the reused row
    const str: array<string>
    var pending: map<string, J.Pending>
    var lastSrc: map<nat, nat>
    var lastAgg: map<nat, nat>
    var decided: nat
    var dups: nat

    ghost predicate Valid()
      reads this
    {
      && Complete(d.cat) && slots.Fit(d.cat) && num.Length == |d.cat.num| && str.Length == |d.cat.str|
      && Fits(pending)
    }

    function Value(): J.State
      reads this
    {
      J.State(pending, J.Marks(lastSrc, lastAgg), decided, dups)
    }

    constructor (d: J.Decider)
      requires Complete(d.cat)
      ensures Valid() && Value() == J.FRESH && this.d == d && fresh(num) && fresh(str)
    {
      var s := NewSlots(d.cat);
      var n, t := new Num[|d.cat.num|], new string[|d.cat.str|];
      this.d, slots, num, str := d, s, n, t;
      pending, lastSrc, lastAgg, decided, dups := map[], map[], map[], 0, 0;
    }

    /** Handles one part; false is the error for a part of the wrong width. */
    method Handle(m: P.Msg) returns (ok: bool, x: Option<J.Decision>)
      requires Valid()
      modifies this, num, str
      ensures Valid()
      ensures if ok then J.Step(d, old(Value()), m) == Some(J.Effect(Value(), x))
              else J.Step(d, old(Value()), m) == None && Value() == old(Value())
    {
      hide Complete, Slots.NumFit, Slots.StrFit, Slots.EntityFit, J.Decide;
      ok, x := true, None;
      if m.Base? {
        if m.src in lastSrc && m.offset <= lastSrc[m.src] {
          dups := dups + 1;
          return;
        }
        lastSrc := lastSrc[m.src := m.offset];
      } else {
        if |m.values| != Width(m.entity) { return false, None; }
        if m.agg in lastAgg && m.num <= lastAgg[m.agg] {
          dups := dups + 1;
          return;
        }
        lastAgg := lastAgg[m.agg := m.num];
      }
      var p := if m.pid in pending then pending[m.pid] else J.Pending(None, map[]);
      p := if m.Base? then p.(base := Some(m)) else p.(values := p.values[m.entity := m.values]);
      if !p.Complete() {
        pending := pending[m.pid := p];
        return;
      }
      pending := pending - {m.pid};
      var decision := Decide(p);
      x := Some(decision);
    }

    /** Decides on a complete payment, assembling it in the shared row buffers. */
    method Decide(p: J.Pending) returns (x: J.Decision)
      requires Valid() && p.Complete() && FitsOne(p)
      modifies num, str, this`decided
      ensures x == J.Decide(d, p) && decided == old(decided) + 1
      ensures x.pid == p.base.value.pid && J.MadeOn(d, RowOf(d.cat, p.base.value.txn, J.Assembled(p)), x)
    {
      hide Complete, Slots.NumFit, Slots.StrFit, Slots.EntityFit, FilledTo, StrsOf, NumsOf, Written;
      var b := p.base.value;
      ghost var parts := J.Assembled(p);
      FillRaw(d.cat, slots, b.txn, num, str, parts);
      for e := 0 to NUM_ENTITIES
        invariant FilledTo(d.cat, b.txn, parts, e, num[..]) && str[..] == StrsOf(d.cat, b.txn)
        invariant decided == old(decided)
      {
        ghost var before := num[..];
        if e !in b.mask {
          FillMissing(d.cat, slots, e, num);
        } else {
          PutValues(d.cat, slots, e, p.values[e], num);
        }
        EntityFills(d.cat, b.txn, parts, e, before, num[..]);
      }
      AllFilled(d.cat, b.txn, parts, num[..]);
      x := J.DecideOn(d, b.pid, Row(num[..], str[..]));
      J.DecideOnMakes(d, b.pid, Row(num[..], str[..]));
      decided := decided + 1;
    }

    /** Writes the joiner's whole state. */
    method Snapshot() returns (img: Image)
      requires Valid()
      ensures ImageOf(img, Value())
    {
      hide Complete, Slots.Fit, Lists, Shows, FitsOne;
      var srcs := List(lastSrc);
      var aggs := List(lastAgg);
      var ids := List(pending);
      var waiting := WriteAll(ids, pending);
      img := Image(decided, dups, srcs, aggs, waiting);
    }

    /** Fills a new joiner from a snapshot; false is the error for one no joiner could have written. */
    method Restore(img: Image, ghost v: J.State) returns (ok: bool)
      requires Valid() && Value() == J.FRESH
      modifies this
      ensures ImageOf(img, v) && Fits(v.pending) ==> ok && Valid() && Value() == v
    {
      hide Complete, Slots.Fit, Lists, Shows, FitsOne, Fits, Readable, Waits;
      decided, dups := img.decided, img.dups;
      lastSrc := Fill(img.srcs, v.marks.lastSrc);
      lastAgg := Fill(img.aggs, v.marks.lastAgg);
      ok, pending := ReadAll(img.pending, v.pending);
    }
  }

  /** The pending list shows every pending payment. */
  ghost predicate Waits(items: seq<(string, Waiting)>, pending: map<string, J.Pending>) {
    && (forall i :: 0 <= i < |items| ==> items[i].0 in pending && Shows(items[i].1, pending[items[i].0]))
    && (forall id :: id in pending ==> exists i :: 0 <= i < |items| && items[i].0 == id)
  }

  ghost predicate ImageOf(img: Image, v: J.State) {
    && img.decided == v.decided && img.dups == v.dups
    && Lists(img.srcs, v.marks.lastSrc) && Lists(img.aggs, v.marks.lastAgg) && Waits(img.pending, v.pending)
  }

  method WriteAll(ids: seq<(string, J.Pending)>, ghost pending: map<string, J.Pending>)
    returns (items: seq<(string, Waiting)>)
    requires Lists(ids, pending)
    ensures Waits(items, pending)
  {
    hide Shows;
    items := [];
    for i := 0 to |ids|
      invariant |items| == i
      invariant forall j :: 0 <= j < i ==> items[j].0 == ids[j].0 && Shows(items[j].1, pending[ids[j].0])
    {
      var x := Write(ids[i].1);
      items := items + [(ids[i].0, x)];
    }
    forall id | id in pending ensures exists i :: 0 <= i < |items| && items[i].0 == id {
      var i :| 0 <= i < |ids| && ids[i].0 == id;
      assert items[i].0 == id;
    }
  }

  method ReadAll(items: seq<(string, Waiting)>, ghost pending: map<string, J.Pending>)
    returns (ok: bool, out: map<string, J.Pending>)
    ensures Waits(items, pending) && Fits(pending) ==> ok && out == pending
  {
    hide Shows, FitsOne, Readable;
    out := map[];
    for i := 0 to |items|
      invariant forall j :: 0 <= j < i ==> items[j].0 in out
      invariant Waits(items, pending) ==> forall id :: id in out ==> id in pending && out[id] == pending[id]
    {
      var id, x := items[i].0, items[i].1;
      if !Readable(x) {
        if Waits(items, pending) && Fits(pending) { ShownIsReadable(x, pending[id]); }
        return false, out;
      }
      var p := ReadBack(x, if id in pending then pending[id] else J.Pending(None, map[]));
      out := out[id := p];
    }
    ok := true;
  }

  lemma ShownIsReadable(x: Waiting, p: J.Pending)
    requires Shows(x, p) && FitsOne(p)
    ensures Readable(x)
  {
    forall e: nat | e < |x.values| && x.values[e].Some? ensures |x.values[e].value| <= MAX_WIDTH {
      var f: Entity := e;
      assert x.values[f] == if f in p.values then Some(p.values[f]) else None;
    }
  }

  /** A pending base is a base, and the values of every pending part have their entity's width. */
  ghost predicate FitsOne(p: J.Pending) {
    (p.base.Some? ==> p.base.value.Base?) && forall e :: e in p.values ==> |p.values[e]| == Width(e)
  }
  ghost predicate Fits(pending: map<string, J.Pending>) { forall id :: id in pending ==> FitsOne(pending[id]) }
}
