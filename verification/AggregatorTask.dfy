/** The aggregator of one entity-events partition, proved against Aggregating (internal/stream/aggregate.go). */
module AggregatorTask {
  import opened Numbers
  import opened Domain
  import opened Feed
  import opened Velocity
  import opened Rows
  import opened Engine
  import A = Aggregating
  import K = Keyed
  import X = Exact
  import G = Merger
  import M = Merging
  import P = Parts

  function LastTime(events: seq<EntityEvent>): int {
    if events == [] then MIN_INT64 else events[|events| - 1].txn.dt
  }

  /** The events came in time order. */
  ghost predicate InTimeOrder(events: seq<EntityEvent>)
    decreases |events|
  {
    events != [] ==>
      var n := |events| - 1;
      InTimeOrder(events[..n]) && LastTime(events[..n]) <= events[n].txn.dt
  }

  /** Released events do: the merger's order is event time first. */
  lemma {:induction false} ReleasedInTime(events: seq<EntityEvent>, n: nat)
    requires InOrder(events) && n <= |events| && forall e :: e in events ==> MIN_POS.Less(e.At())
    ensures InTimeOrder(events[..n])
    decreases n
  {
    if n > 0 {
      ReleasedInTime(events, n - 1);
      assert events[..n][..n - 1] == events[..n - 1] && events[n - 1] in events;
      if n > 1 { P.InOrderAt(events, n - 2, n - 1); }
    }
  }

  /** In particular, everything an aggregator applies while the delivery contract holds. */
  lemma ContractInTime(w: World, a: nat, m: M.State, seen: set<EntityEvent>, applied: seq<EntityEvent>)
    requires Sound(w) && M.Inv(w, a, m, seen, applied)
    ensures InTimeOrder(applied)
  {
    forall e | e in applied ensures MIN_POS.Less(e.At()) { assert PaymentAt(w, e.src, e.offset); }
    hide Sound, KeyOf;
    ReleasedInTime(applied, |applied|);
    assert applied[..|applied|] == applied;
  }

  lemma InTimeSnoc(events: seq<EntityEvent>, e: EntityEvent)
    ensures InTimeOrder(events + [e]) <==> InTimeOrder(events) && LastTime(events) <= e.txn.dt
  {
    assert (events + [e])[..|events|] == events;
  }

  lemma {:induction false} PartsFromSnoc(a: nat, events: seq<EntityEvent>, e: EntityEvent, n: nat)
    requires n <= |events|
    ensures A.PartsFrom(a, events + [e], n) == A.PartsFrom(a, events, n) + [P.PartAt(a, events + [e], |events|)]
    decreases |events| - n
  {
    hide P.PartAt;
    var more := events + [e];
    if n == |events| {
      assert A.PartsFrom(a, more, n) == [P.PartAt(a, more, n)] + A.PartsFrom(a, more, n + 1);
    } else {
      PartsFromSnoc(a, events, e, n + 1);
      P.PartOfPrefix(a, events, more, n);
    }
  }

  /** The engine has applied these events and nothing else. */
  ghost predicate AppliedTrails(trails: Key -> Trail, events: seq<EntityEvent>) {
    forall k :: trails(k) == P.EventTrail(k, events, |events|)
  }

  lemma AppliedNext(trails: Key -> Trail, events: seq<EntityEvent>, e: EntityEvent, more: Key -> Trail)
    requires AppliedTrails(trails, events) && KeyOf(e.txn, e.entity).Some?
    requires more == Extended(trails, KeyOf(e.txn, e.entity).value, e.txn)
    ensures AppliedTrails(more, events + [e])
  {
    hide KeyOf;
    forall k ensures more(k) == P.EventTrail(k, events + [e], |events| + 1) {
      P.TrailOfPrefix(k, events, events + [e], |events|);
      assert trails(k) == P.EventTrail(k, events, |events|);
    }
  }

  lemma PartIsNext(a: nat, trails: Key -> Trail, events: seq<EntityEvent>, e: EntityEvent)
    requires AppliedTrails(trails, events) && KeyOf(e.txn, e.entity).Some?
    ensures P.PartAt(a, events + [e], |events|)
         == P.Part(a, |events|, e.pid, e.entity, PartOf(trails(KeyOf(e.txn, e.entity).value), e.entity, e.txn))
  {
    hide KeyOf, PartOf;
    var k := KeyOf(e.txn, e.entity).value;
    P.TrailOfPrefix(k, events, events + [e], |events|);
    assert trails(k) == P.EventTrail(k, events, |events|);
  }

  /** What a snapshot keeps. */
  datatype Image = Image(num: nat, merge: M.State, images: map<Key, X.Image>)

  ghost function TrailsOf(events: seq<EntityEvent>): Key -> Trail {
    k => P.EventTrail(k, events, |events|)
  }

  /** The velocity state answers for these events, if they came in time order. */
  ghost predicate Holds(st: Store, events: seq<EntityEvent>) {
    InTimeOrder(events) ==> HoldsAll(st, TrailsOf(events), LastTime(events))
  }

  ghost predicate ImageOf(img: Image, v: A.State) {
    && img.num == |v.applied| && img.merge == v.merge && G.Snapshotted(v.merge)
    && exists st :: K.ImagesFit(img.images, st) && Holds(st, v.applied)
  }

  lemma HeldTrails(trails: Key -> Trail, events: seq<EntityEvent>)
    requires AppliedTrails(trails, events)
    ensures forall st, clock :: HoldsAll(st, trails, clock) ==> HoldsAll(st, TrailsOf(events), clock)
  {}

  class Aggregator {
    const part: nat
    const engine: Engine
    const merge: G.Merger
    const row: array<Num>
    var num: nat // how many events it has applied; parts are numbered by it
    ghost var applied: seq<EntityEvent>

    ghost predicate Valid()
      reads this, engine, engine.keyed, engine.keyed.m.Values, merge
    {
      && engine.Valid() && merge.Valid() && row.Length == |engine.cat.num| && num == |applied|
      && AppliedTrails(engine.trails, applied)
      && (InTimeOrder(applied) ==> engine.orderly)
      && (engine.orderly ==> engine.clock == LastTime(applied))
    }

    ghost function Value(): A.State
      reads this, merge
    {
      A.State(merge.Value(), applied)
    }

    constructor (cat: Catalog, part: nat, sources: nat, evictEvery: nat)
      requires Complete(cat)
      ensures Valid() && Value() == A.Fresh(sources) && this.part == part
      ensures fresh(engine) && fresh(engine.keyed) && fresh(merge) && fresh(row) && engine.keyed.m == map[]
    {
      engine := new Engine(cat, evictEvery, MIN_INT64);
      merge := new G.Merger(sources);
      row := new Num[|cat.num|];
      this.part, num, applied := part, 0, [];
    }

    /** Applies an event to the velocity state and makes its part; false when the payment has no such key. */
    method Apply(e: EntityEvent) returns (ok: bool, p: P.Msg)
      requires Valid()
      modifies this, engine, engine.keyed, engine.keyed.m.Values, row
      ensures ok == KeyOf(e.txn, e.entity).Some?
      ensures fresh(engine.keyed.m.Values - old(engine.keyed.m.Values))
      ensures ok ==> Valid() && applied == old(applied) + [e]
      ensures ok && InTimeOrder(applied) ==> p == P.PartAt(part, applied, |old(applied)|)
    {
      hide Complete, HoldsAll, Written, PartOf, Extended, AppliedTrails, InTimeOrder, KeyOf, P.PartAt, Engine.Valid;
      hide G.Merger.Valid;
      p := P.Part(part, num, e.pid, e.entity, []);
      ghost var before, trails := row[..], engine.trails;
      ok := engine.ScoreAndUpdateEntity(e.txn, e.entity, row);
      if !ok { return; }
      var k := KeyOf(e.txn, e.entity).value;
      AppliedNext(trails, applied, e, engine.trails);
      InTimeSnoc(applied, e);
      PartIsNext(part, trails, applied, e);
      if InTimeOrder(applied + [e]) {
        PartWidths(trails(k), e.entity, e.txn);
      }
      var values := ReadBack(e.entity, PartOf(trails(k), e.entity, e.txn), before);
      p := P.Part(part, num, e.pid, e.entity, values);
      applied := applied + [e];
      num := num + 1;
    }

    /** An entity's values, read back from its slots in order. */
    method ReadBack(e: Entity, ghost v: seq<Num>, ghost before: seq<Num>) returns (values: seq<Num>)
      requires engine.Valid() && row.Length == |engine.cat.num|
      ensures |v| == Width(e) && Written(engine.cat, e, v, Width(e), before, row[..]) ==> values == v
    {
      assert engine.slots.EntityFit(engine.cat, e);
      values := [];
      var slots := engine.slots.vel[e];
      for k := 0 to Width(e)
        invariant |values| == k
        invariant |v| == Width(e) && Written(engine.cat, e, v, Width(e), before, row[..]) ==> values == v[..k]
      {
        values := values + [row[slots[k]]];
      }
    }

    /** Applies events in order; an error stops the partition where it is. */
    method ApplyAll(events: seq<EntityEvent>) returns (ok: bool, parts: seq<P.Msg>)
      requires Valid()
      modifies this, engine, engine.keyed, engine.keyed.m.Values, row
      ensures fresh(engine.keyed.m.Values - old(engine.keyed.m.Values))
      ensures ok == forall e :: e in events ==> KeyOf(e.txn, e.entity).Some?
      ensures ok ==> Valid() && applied == old(applied) + events
      ensures ok && InTimeOrder(applied) ==> parts == A.PartsFrom(part, applied, |old(applied)|)
    {
      hide KeyOf, InTimeOrder, A.PartsFrom, P.PartAt, AppliedTrails, Engine.Valid, G.Merger.Valid;
      parts := [];
      NoParts(part, applied);
      assert applied + [] == applied;
      for i := 0 to |events|
        invariant Valid() && fresh(engine.keyed.m.Values - old(engine.keyed.m.Values))
        invariant applied == old(applied) + events[..i]
        invariant forall j :: 0 <= j < i ==> KeyOf(events[j].txn, events[j].entity).Some?
        invariant InTimeOrder(applied) ==> parts == A.PartsFrom(part, applied, |old(applied)|)
      {
        hide Valid;
        ghost var earlier := applied;
        var p;
        ok, p := Apply(events[i]);
        if !ok {
          assert events[i] in events;
          return;
        }
        InTimeSnoc(earlier, events[i]);
        PartsFromSnoc(part, earlier, events[i], |old(applied)|);
        parts := parts + [p];
        assert events[..i + 1] == events[..i] + [events[i]];
        assert old(applied) + events[..i + 1] == earlier + [events[i]];
      }
      assert events[..|events|] == events;
      ok := true;
    }

    /** Handles one entity-events record and makes the parts it releases. */
    method Handle(m: M.Msg) returns (ok: bool, parts: seq<P.Msg>)
      requires Valid()
      modifies this, engine, engine.keyed, engine.keyed.m.Values, merge, row
      ensures fresh(engine.keyed.m.Values - old(engine.keyed.m.Values))
      ensures ok ==> Valid() && A.Handle(part, old(Value()), m).Some?
      ensures ok ==> A.Handle(part, old(Value()), m).value.state == Value()
      ensures ok && InTimeOrder(applied) ==> A.Handle(part, old(Value()), m).value.parts == parts
      ensures !ok ==> A.Handle(part, old(Value()), m).None?
                      || exists e :: e in M.Step(old(merge.Value()), m).value.events && KeyOf(e.txn, e.entity).None?
    {
      hide KeyOf, InTimeOrder, A.PartsFrom, P.PartAt, AppliedTrails, Engine.Valid, M.Add, M.Advance, M.Release, SortSet;
      var src := if m.Ev? then m.event.src else m.src;
      if src >= |merge.wm| { return false, []; }
      var events: seq<EntityEvent> := [];
      if m.Wm? {
        merge.Watermark(src, m.pos);
      } else {
        var late := merge.Add(m.event);
        if late { events := [m.event]; }
      }
      var released := merge.Release();
      events := events + released;
      ok, parts := ApplyAll(events);
    }

    /** Writes the number of events applied, the merger and the velocity state. */
    method Snapshot() returns (img: Image)
      requires Valid()
      ensures ImageOf(img, Value())
    {
      hide HoldsAll, K.ImagesFit, G.Merger.Valid, G.Snapshotted, AppliedTrails, InTimeOrder, Complete;
      var m := merge.Encode();
      var images := engine.keyed.Snapshot();
      img := Image(num, m, images);
      HeldTrails(engine.trails, applied);
      assert Holds(engine.keyed.store, applied);
    }

    /** Reads a snapshot back into a new aggregator; false is the error for one of another topic. It
    goes on exactly where the one that wrote it stood. */
    method Restore(img: Image, ghost v: A.State) returns (ok: bool)
      requires Valid()
      modifies this, engine, engine.keyed, merge
      ensures ok ==> |img.merge.wm| == old(|merge.wm|)
      ensures ImageOf(img, v) && |img.merge.wm| == old(|merge.wm|) ==>
                ok && Valid() && Value() == v && fresh(engine.keyed.m.Values)
    {
      hide HoldsAll, K.ImagesFit, G.Merger.Valid, G.Snapshotted, InTimeOrder, Engine.Valid;
      num, applied := img.num, v.applied;
      ok := merge.Decode(img.merge);
      if !ok { return; }
      ghost var st: Store := map[];
      if ImageOf(img, v) {
        st :| K.ImagesFit(img.images, st) && Holds(st, v.applied);
      }
      ok := engine.Restore(img.images, st, TrailsOf(v.applied), LastTime(v.applied), InTimeOrder(v.applied));
    }

    /** While the delivery contract holds an aggregator never stops: every event has its key and comes in
    time order, so the new state and the parts are exactly the specification's. */
    method HandleDelivered(ghost w: World, ghost seen: set<EntityEvent>, m: M.Msg) returns (parts: seq<P.Msg>)
      requires Valid() && Sound(w) && M.Inv(w, part, merge.Value(), seen, applied) && M.Delivers(w, part, seen, m)
      modifies this, engine, engine.keyed, engine.keyed.m.Values, merge, row
      ensures Valid() && fresh(engine.keyed.m.Values - old(engine.keyed.m.Values))
      ensures A.Handle(part, old(Value()), m) == Some(A.Effect(Value(), parts))
      ensures M.Inv(w, part, merge.Value(), seen + M.Events(m), applied)
    {
      hide Valid, Sound, M.Inv, M.Delivers, M.Step, InTimeOrder, A.PartsFrom;
      DeliveredHasKeys(w, part, merge.Value(), seen, applied, m);
      var ok;
      ok, parts := Handle(m);
    }
  }

  /** Every event a delivered record releases has its key, and keeps the events in time order. */
  lemma DeliveredHasKeys(w: World, a: nat, m: M.State, seen: set<EntityEvent>, applied: seq<EntityEvent>, msg: M.Msg)
    requires Sound(w) && M.Inv(w, a, m, seen, applied) && M.Delivers(w, a, seen, msg)
    ensures |m.wm| == |m.recv| && M.Step(m, msg).Some?
    ensures var x := M.Step(m, msg).value;
            && M.Inv(w, a, x.state, seen + M.Events(msg), applied + x.events)
            && InTimeOrder(applied + x.events)
            && forall e :: e in x.events ==> KeyOf(e.txn, e.entity).Some?
  {
    M.StepInv(w, a, m, seen, applied, msg);
    var x := M.Step(m, msg).value;
    ContractInTime(w, a, x.state, seen + M.Events(msg), applied + x.events);
    forall e | e in x.events ensures KeyOf(e.txn, e.entity).Some? {
      assert e in applied + x.events;
      assert Routed(w, a, e);
    }
  }

  lemma NoParts(a: nat, events: seq<EntityEvent>)
    ensures A.PartsFrom(a, events, |events|) == []
  {}

  lemma PartWidths(tr: Trail, e: Entity, t: Txn)
    ensures |PartOf(tr, e, t)| == Width(e)
  {}
}
