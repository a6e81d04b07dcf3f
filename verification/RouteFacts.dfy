/** What a router sends is what its partition's payments call for (internal/stream/route.go). */
module RouteFacts {
  import opened Domain
  import opened Feed
  import opened Routing
  import opened Channels
  import M = Merging
  import P = Parts
  import J = Joining

  lemma {:induction false} ForAggregatorConcat(x: seq<Output>, y: seq<Output>, a: nat)
    ensures ForAggregator(x + y, a) == ForAggregator(x, a) + ForAggregator(y, a)
    decreases |x|
  {
    if x == [] {
      assert x + y == y;
    } else {
      assert (x + y)[1..] == x[1..] + y;
      ForAggregatorConcat(x[1..], y, a);
    }
  }

  lemma {:induction false} ForJoinerConcat(x: seq<Output>, y: seq<Output>, j: nat)
    ensures ForJoiner(x + y, j) == ForJoiner(x, j) + ForJoiner(y, j)
    decreases |x|
  {
    if x == [] {
      assert x + y == y;
    } else {
      assert (x + y)[1..] == x[1..] + y;
      ForJoinerConcat(x[1..], y, j);
    }
  }

  /** These are the events of the payment at (s, i) for aggregator a, entities e and up. */
  ghost predicate EventsOf(w: World, s: nat, i: nat, a: nat, e: nat, q: seq<M.Msg>) {
    && Ascending(q) && WatermarksHold(w, s, a, q, {})
    && (forall x :: x in EventsIn(q) <==> Routed(w, a, x) && x.src == s && x.offset == i && x.entity >= e)
  }

  lemma NoEvent(w: World, s: nat, i: nat, a: nat, e: nat, q: seq<M.Msg>)
    requires PaymentAt(w, s, i) && EventsOf(w, s, i, a, e + 1, q)
    requires e < NUM_ENTITIES
    requires KeyOf(w.sources[s][i].txn, e).None? || w.topo.entPart(KeyOf(w.sources[s][i].txn, e).value) != a
    ensures EventsOf(w, s, i, a, e, q)
  {
    hide KeyOf, EventsIn, Ascending, WatermarksHold;
  }

  lemma OneEvent(w: World, s: nat, i: nat, a: nat, e: nat, q: seq<M.Msg>)
    requires PaymentAt(w, s, i) && EventsOf(w, s, i, a, e + 1, q)
    requires e < NUM_ENTITIES
    requires KeyOf(w.sources[s][i].txn, e).Some? && w.topo.entPart(KeyOf(w.sources[s][i].txn, e).value) == a
    ensures var r := w.sources[s][i]; EventsOf(w, s, i, a, e, [M.Ev(EntityEvent(s, i, e, r.pid, r.txn))] + q)
  {
    hide KeyOf;
    var r := w.sources[s][i];
    var x := EntityEvent(s, i, e, r.pid, r.txn);
    assert ([M.Ev(x)] + q)[1..] == q;
    assert EventsIn([M.Ev(x)] + q) == {x} + EventsIn(q);
  }

  lemma {:induction false} EntityOutputsAre(w: World, s: nat, i: nat, a: nat, e: nat)
    requires PaymentAt(w, s, i)
    ensures var r := w.sources[s][i];
            EventsOf(w, s, i, a, e, ForAggregator(EntityOutputs(w.topo, s, i, r.pid, r.txn, e), a))
    decreases NUM_ENTITIES - e
  {
    hide KeyOf, EventsOf;
    var r := w.sources[s][i];
    if e < NUM_ENTITIES {
      EntityOutputsAre(w, s, i, a, e + 1);
      var rest := EntityOutputs(w.topo, s, i, r.pid, r.txn, e + 1);
      var k := KeyOf(r.txn, e);
      if k.Some? {
        var first := ToAggregator(w.topo.entPart(k.value), M.Ev(EntityEvent(s, i, e, r.pid, r.txn)));
        assert ([first] + rest)[1..] == rest;
        if first.part == a {
          OneEvent(w, s, i, a, e, ForAggregator(rest, a));
        } else {
          NoEvent(w, s, i, a, e, ForAggregator(rest, a));
          assert [] + ForAggregator(rest, a) == ForAggregator(rest, a);
        }
      } else {
        NoEvent(w, s, i, a, e, ForAggregator(rest, a));
        assert [] + rest == rest;
      }
    } else {
      NoMoreEvents(w, s, i, a, e);
    }
  }

  lemma NoMoreEvents(w: World, s: nat, i: nat, a: nat, e: nat)
    requires e >= NUM_ENTITIES
    ensures EventsOf(w, s, i, a, e, [])
  {}

  lemma {:induction false} NoBases(w: World, s: nat, i: nat, j: nat, pid: string, t: Txn, e: nat)
    ensures ForJoiner(EntityOutputs(w.topo, s, i, pid, t, e), j) == []
    decreases NUM_ENTITIES - e
  {
    hide KeyOf;
    if e < NUM_ENTITIES {
      NoBases(w, s, i, j, pid, t, e + 1);
      var k := KeyOf(t, e);
      var rest := EntityOutputs(w.topo, s, i, pid, t, e + 1);
      if k.Some? {
        var first := ToAggregator(w.topo.entPart(k.value), M.Ev(EntityEvent(s, i, e, pid, t)));
        assert ([first] + rest)[1..] == rest;
      } else {
        assert [] + rest == rest;
      }
    }
  }

  /** Handling record i sends each aggregator exactly the payment's events routed to it. */
  lemma HandleSendsEvents(w: World, s: nat, i: nat, a: nat, st: State)
    requires s < |w.sources| && i < |w.sources[s]|
    ensures EventsOf(w, s, i, a, 0, ForAggregator(Handle(w.topo, s, st, i, w.sources[s][i]).outputs, a))
  {
    hide KeyOf, EntityOutputs, BaseOutput;
    var r := w.sources[s][i];
    if r.Payment? {
      EntityOutputsAre(w, s, i, a, 0);
      ForAggregatorConcat(EntityOutputs(w.topo, s, i, r.pid, r.txn, 0), [BaseOutput(w.topo, s, i, r.pid, r.txn)], a);
      OnlyBase(w, s, i, a, r.pid, r.txn);
      var q := ForAggregator(EntityOutputs(w.topo, s, i, r.pid, r.txn, 0), a);
      assert q + [] == q;
    }
  }

  lemma OnlyBase(w: World, s: nat, i: nat, a: nat, pid: string, t: Txn)
    ensures ForAggregator([BaseOutput(w.topo, s, i, pid, t)], a) == []
    ensures ForJoiner([BaseOutput(w.topo, s, i, pid, t)], a)
            == if w.topo.joinPart(pid) == a then [BaseOutput(w.topo, s, i, pid, t).base] else []
  {}

  lemma RoutedBaseIs(w: World, s: nat, i: nat, j: nat, m: P.Msg)
    requires s < |w.sources| && i < |w.sources[s]|
    ensures J.Routed(w, j, m) && IsFrom(m, Router(s)) && Number(m) == i
        <==> (var r := w.sources[s][i];
              r.Payment? && w.topo.joinPart(r.pid) == j && m == BaseOutput(w.topo, s, i, r.pid, r.txn).base)
  {
    hide KeyOf, P.MaskOf, Merged, P.PartAt;
  }

  /** These are the base parts of record i for joiner j. */
  ghost predicate BasesOf(w: World, s: nat, i: nat, j: nat, q: seq<P.Msg>) {
    Numbered(q) && forall m :: m in Elements(q) <==> J.Routed(w, j, m) && IsFrom(m, Router(s)) && Number(m) == i
  }

  lemma BaseOrNothing(w: World, s: nat, i: nat, j: nat)
    requires s < |w.sources| && i < |w.sources[s]|
    ensures var r := w.sources[s][i];
            BasesOf(w, s, i, j,
              if r.Payment? && w.topo.joinPart(r.pid) == j then [BaseOutput(w.topo, s, i, r.pid, r.txn).base] else [])
  {
    hide J.Routed, P.MaskOf;
    var r := w.sources[s][i];
    forall m ensures J.Routed(w, j, m) && IsFrom(m, Router(s)) && Number(m) == i
        <==> (r.Payment? && w.topo.joinPart(r.pid) == j && m == BaseOutput(w.topo, s, i, r.pid, r.txn).base)
    {
      RoutedBaseIs(w, s, i, j, m);
    }
    if r.Payment? {
      var x := BaseOutput(w.topo, s, i, r.pid, r.txn).base;
      assert [x][1..] == [];
      assert Numbered([x]) && Elements([x]) == {x};
    }
  }

  /** Handling record i sends each joiner exactly the payment whose home it is. */
  lemma HandleSendsBase(w: World, s: nat, i: nat, j: nat, st: State)
    requires s < |w.sources| && i < |w.sources[s]|
    ensures BasesOf(w, s, i, j, ForJoiner(Handle(w.topo, s, st, i, w.sources[s][i]).outputs, j))
  {
    hide EntityOutputs, BaseOutput, BasesOf;
    var r := w.sources[s][i];
    BaseOrNothing(w, s, i, j);
    hide J.Routed;
    if r.Payment? {
      NoBases(w, s, i, j, r.pid, r.txn, 0);
      ForJoinerConcat(EntityOutputs(w.topo, s, i, r.pid, r.txn, 0), [BaseOutput(w.topo, s, i, r.pid, r.txn)], j);
      OnlyBase(w, s, i, j, r.pid, r.txn);
      var q := ForJoiner([BaseOutput(w.topo, s, i, r.pid, r.txn)], j);
      assert [] + q == q;
    } else {
      assert ForJoiner([ToDeadLetters(i)], j) == [];
    }
  }

  lemma {:induction false} ToEachReaches(s: nat, pos: Pos, p: nat, parts: nat, a: nat)
    requires p <= parts
    ensures ForAggregator(ToEach(s, pos, p, parts), a) == if p <= a < parts then [M.Wm(s, pos)] else []
    ensures ForJoiner(ToEach(s, pos, p, parts), a) == []
    decreases parts - p
  {
    if p < parts {
      ToEachReaches(s, pos, p + 1, parts, a);
      assert ToEach(s, pos, p, parts)[1..] == ToEach(s, pos, p + 1, parts);
    }
  }
}
