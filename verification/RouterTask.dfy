/** The router of one payments partition, proved against Routing (internal/stream/route.go). */
module RouterTask {
  import opened Domain
  import opened Feed
  import R = Routing
  import M = Merging
  import P = Parts

  lemma OneMore(outs: seq<R.Output>, c: Topology, s: nat, offset: nat, pid: string, t: Txn, e: Entity)
    ensures outs + R.EntityOutputs(c, s, offset, pid, t, e) ==
      (if KeyOf(t, e).Some?
       then outs + [R.ToAggregator(c.entPart(KeyOf(t, e).value), M.Ev(EntityEvent(s, offset, e, pid, t)))]
       else outs) + R.EntityOutputs(c, s, offset, pid, t, e + 1)
  {
    var k := KeyOf(t, e);
    var rest := R.EntityOutputs(c, s, offset, pid, t, e + 1);
    if k.Some? {
      var x := R.ToAggregator(c.entPart(k.value), M.Ev(EntityEvent(s, offset, e, pid, t)));
      assert R.EntityOutputs(c, s, offset, pid, t, e) == [x] + rest;
      hide KeyOf, R.EntityOutputs;
      assert outs + ([x] + rest) == (outs + [x]) + rest;
    } else {
      assert R.EntityOutputs(c, s, offset, pid, t, e) == [] + rest;
      hide KeyOf, R.EntityOutputs;
      assert [] + rest == rest;
    }
  }

  lemma NoneLeft(outs: seq<R.Output>, c: Topology, s: nat, offset: nat, pid: string, t: Txn)
    ensures outs + R.EntityOutputs(c, s, offset, pid, t, NUM_ENTITIES) == outs
  {}

  class Router {
    const part: nat
    const topo: Topology
    var last: Pos // the latest position seen on the partition
    var sent: Pos // the latest watermark sent
    var violations: nat

    function Value(): R.State
      reads this
    {
      R.State(last, sent, violations)
    }

    constructor (part: nat, topo: Topology)
      ensures Value() == R.FRESH && this.part == part && this.topo == topo
    {
      this.part, this.topo := part, topo;
      last, sent, violations := MIN_POS, MIN_POS, 0;
    }

    /** Moves the partition's position forward; one that does not move forward is counted. */
    method Advance(p: Pos)
      modifies this
      ensures Value() == R.Advanced(old(Value()), p)
    {
      if !last.Less(p) {
        violations := violations + 1;
        return;
      }
      last := p;
    }

    /** One event per entity that has a key, and the mask of those entities. */
    method FanOut(offset: nat, pid: string, t: Txn) returns (outs: seq<R.Output>, mask: set<Entity>)
      ensures outs == R.EntityOutputs(topo, part, offset, pid, t, 0) && mask == P.MaskOf(t)
    {
      hide KeyOf, R.EntityOutputs;
      outs, mask := [], {};
      for e := 0 to NUM_ENTITIES
        invariant outs + R.EntityOutputs(topo, part, offset, pid, t, e) ==
                  R.EntityOutputs(topo, part, offset, pid, t, 0)
        invariant forall x: Entity :: x in mask <==> KeyOf(t, x).Some? && x < e
      {
        var k := KeyOf(t, e);
        OneMore(outs, topo, part, offset, pid, t, e);
        if k.Some? {
          mask := mask + {e};
          outs := outs + [R.ToAggregator(topo.entPart(k.value), M.Ev(EntityEvent(part, offset, e, pid, t)))];
        }
      }
      NoneLeft(outs, topo, part, offset, pid, t);
    }

    /** Fans a record out to the aggregators that own its keys and to its joiner. */
    method Handle(offset: nat, rec: Record) returns (outs: seq<R.Output>)
      modifies this
      ensures R.Effect(Value(), outs) == R.Handle(topo, part, old(Value()), offset, rec)
    {
      hide R.EntityOutputs, P.MaskOf;
      match rec
      case Malformed => outs := [R.ToDeadLetters(offset)];
      case Heartbeat(p) =>
        if last.Less(p) { last := p; }
        outs := [];
      case Payment(pid, t) =>
        Advance(PosOf(t));
        var events, mask := FanOut(offset, pid, t);
        outs := events + [R.ToJoiner(topo.joinPart(pid), P.Base(part, offset, pid, mask, t))];
    }

    /** Tells each aggregator how far this partition has come, unless it has been told. */
    method Watermarks() returns (outs: seq<R.Output>)
      modifies this
      ensures R.Effect(Value(), outs) == R.Watermarks(part, old(Value()), topo.entParts)
    {
      outs := [];
      if !sent.Less(last) { return; }
      sent := last;
      for p := 0 to topo.entParts
        invariant outs + R.ToEach(part, last, p, topo.entParts) == R.ToEach(part, last, 0, topo.entParts)
      {
        outs := outs + [R.ToAggregator(p, M.Wm(part, last))];
      }
    }
  }
}
