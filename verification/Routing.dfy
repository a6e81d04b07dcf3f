/** The router of one payments partition (internal/stream/route.go). */
module Routing {
  import opened Domain
  import opened Feed
  import M = Merging
  import P = Parts

  /** A record the router wants written: to an aggregator, a joiner or the dead letters. */
  datatype Output = ToAggregator(
    part: nat, event: M.Msg) | ToJoiner(part: nat, base: P.Msg) | ToDeadLetters(offset: nat)

  /** The latest position seen on the partition, and the latest one promised downstream. */
  datatype State = State(last: Pos, sent: Pos, violations: nat)

  const FRESH := State(MIN_POS, MIN_POS, 0)

  datatype Effect = Effect(state: State, outputs: seq<Output>)

  /** One event per entity that has a key, entities e and up. */
  function EntityOutputs(c: Topology, s: nat, offset: nat, pid: string, t: Txn, e: nat): seq<Output>
    decreases NUM_ENTITIES - e
  {
    if e >= NUM_ENTITIES then []
    else
      var k := KeyOf(t, e);
      (if k.Some? then [ToAggregator(c.entPart(k.value), M.Ev(EntityEvent(s, offset, e, pid, t)))] else [])
      + EntityOutputs(c, s, offset, pid, t, e + 1)
  }

  function BaseOutput(c: Topology, s: nat, offset: nat, pid: string, t: Txn): Output {
    ToJoiner(c.joinPart(pid), P.Base(s, offset, pid, P.MaskOf(t), t))
  }

  function Advanced(st: State, p: Pos): State {
    if st.last.Less(p) then st.(last := p) else st.(violations := st.violations + 1)
  }

  /** One record of partition s. */
  function Handle(c: Topology, s: nat, st: State, offset: nat, rec: Record): Effect {
    match rec
    case Malformed => Effect(st, [ToDeadLetters(offset)])
    case Heartbeat(p) => Effect(if st.last.Less(p) then st.(last := p) else st, [])
    case Payment(pid, t) =>
      Effect(Advanced(st, PosOf(t)), EntityOutputs(c, s, offset, pid, t, 0) + [BaseOutput(c, s, offset, pid, t)])
  }

  function ToEach(s: nat, pos: Pos, p: nat, parts: nat): seq<Output>
    requires p <= parts
    decreases parts - p
  {
    if p == parts then [] else [ToAggregator(p, M.Wm(s, pos))] + ToEach(s, pos, p + 1, parts)
  }

  /** The partition's position for each aggregator, when it is news. */
  function Watermarks(s: nat, st: State, parts: nat): Effect {
    if st.sent.Less(st.last) then Effect(st.(sent := st.last), ToEach(s, st.last, 0, parts)) else Effect(st, [])
  }

  // ---- what each partition gets -----------------------------------------------

  function ForAggregator(outs: seq<Output>, a: nat): seq<M.Msg> {
    if outs == [] then []
    else (if outs[0].ToAggregator? && outs[0].part == a then [outs[0].event] else []) + ForAggregator(outs[1..], a)
  }

  function ForJoiner(outs: seq<Output>, j: nat): seq<P.Msg> {
    if outs == [] then []
    else (if outs[0].ToJoiner? && outs[0].part == j then [outs[0].base] else []) + ForJoiner(outs[1..], j)
  }
}
