/** The aggregator of one entity-events partition (internal/stream/aggregate.go): what one record does
to its state and which parts it sends. */
module Aggregating {
  import opened Domain
  import opened Feed
  import M = Merging
  import P = Parts

  /** The merger, and the events applied so far: their number is the next part's sequence number and
  they are all the velocity state depends on. */
  datatype State = State(merge: M.State, applied: seq<EntityEvent>)

  function Fresh(sources: nat): State { State(M.Fresh(sources), []) }

  datatype Effect = Effect(state: State, parts: seq<P.Msg>)

  /** The parts made of the events from the n-th on. */
  function PartsFrom(a: nat, events: seq<EntityEvent>, n: nat): seq<P.Msg>
    requires n <= |events|
    decreases |events| - n
  {
    if n == |events| then [] else [P.PartAt(a, events, n)] + PartsFrom(a, events, n + 1)
  }

  /** One record of partition a. */
  function Handle(a: nat, st: State, m: M.Msg): Option<Effect>
    requires |st.merge.wm| == |st.merge.recv|
  {
    var x := M.Step(st.merge, m);
    if x.None? then None
    else
      var applied := st.applied + x.value.events;
      Some(Effect(State(x.value.state, applied), PartsFrom(a, applied, |st.applied|)))
  }

  /** The parts that go to joiner j. */
  function ForJoiner(c: Topology, parts: seq<P.Msg>, j: nat): seq<P.Msg> {
    if parts == [] then []
    else (if c.joinPart(parts[0].pid) == j then [parts[0]] else []) + ForJoiner(c, parts[1..], j)
  }
}
