/** The whole stream pipeline as a state machine: routers, aggregators and joiners that handle their
input, have their output acknowledged record by record, commit or checkpoint once it all is, and
crash at any moment (internal/stream/runner.go and the tasks it drives). */
module System {
  import opened Feed
  import M = Merging
  import P = Parts
  import J = Joining
  import R = Routing
  import A = Aggregating

  /** A task with its next input offset and, per target partition, the output not yet acknowledged. */
  datatype RouterTask = RouterTask(next: nat, state: R.State, toAgg: seq<seq<M.Msg>>, toJoin: seq<seq<P.Msg>>)
  datatype AggTask = AggTask(next: nat, state: A.State, toJoin: seq<seq<P.Msg>>)

  /** done is history: the payments this state has decided. */
  datatype JoinTask = JoinTask(next: nat, state: J.State, done: set<string>, out: seq<J.Decision>)

  datatype System = System(
    routers: seq<RouterTask>, committed: seq<nat>,  // per payments partition
    events: seq<seq<M.Msg>>,                        // the entity-events topic
    aggs: seq<AggTask>, aggSnaps: seq<AggTask>,     // per entity-events partition
    parts: seq<seq<P.Msg>>,                         // the parts topic
    joins: seq<JoinTask>, joinSnaps: seq<JoinTask>, // per parts partition
    decisions: seq<seq<J.Decision>>)                // the decisions topic, by joiner

  function StartRouter(w: World, offset: nat): RouterTask {
    RouterTask(offset, R.FRESH, seq(w.topo.entParts, a => []), seq(w.topo.joinParts, j => []))
  }

  function StartAgg(w: World): AggTask { AggTask(0, A.Fresh(|w.sources|), seq(w.topo.joinParts, j => [])) }

  const START_JOIN := JoinTask(0, J.FRESH, {}, [])

  function Start(w: World): System {
    System(seq(|w.sources|, s => StartRouter(w, 0)), seq(|w.sources|, s => 0),
           seq(w.topo.entParts, a => []), seq(w.topo.entParts, a => StartAgg(w)),
             seq(w.topo.entParts, a => StartAgg(w)),
           seq(w.topo.joinParts, j => []), seq(w.topo.joinParts, j => START_JOIN),
             seq(w.topo.joinParts, j => START_JOIN),
           seq(w.topo.joinParts, j => []))
  }

  ghost predicate Shaped(w: World, y: System) {
    && |y.routers| == |y.committed| == |w.sources|
    && |y.events| == |y.aggs| == |y.aggSnaps| == w.topo.entParts
    && |y.parts| == |y.joins| == |y.joinSnaps| == |y.decisions| == w.topo.joinParts
    && (forall s :: 0 <= s < |y.routers| ==>
          |y.routers[s].toAgg| == w.topo.entParts && |y.routers[s].toJoin| == w.topo.joinParts)
    && (forall a :: 0 <= a < |y.aggs| ==> |y.aggs[a].toJoin| == |y.aggSnaps[a].toJoin| == w.topo.joinParts)
    && (forall a :: 0 <= a < |y.aggs| ==>
          && |y.aggs[a].state.merge.wm| == |y.aggs[a].state.merge.recv|
          && |y.aggSnaps[a].state.merge.wm| == |y.aggSnaps[a].state.merge.recv|)
  }

  datatype Step =
    | RouterHandles(s: nat) | RouterSendsEvent(s: nat, a: nat) | RouterSendsBase(s: nat, j: nat)
    | RouterPromises(s: nat) | RouterCommits(s: nat) | RouterCrashes(s: nat)
    | AggHandles(a: nat) | AggSends(a: nat, j: nat) | AggCheckpoints(a: nat) | AggCrashes(a: nat)
    | JoinHandles(j: nat) | JoinSends(j: nat) | JoinCheckpoints(j: nat) | JoinCrashes(j: nat)

  predicate Empty<T>(queues: seq<seq<T>>) { forall i :: 0 <= i < |queues| ==> queues[i] == [] }

  /** A router flushes before it sends watermarks, and flushes those before it commits; a stateful
  task flushes before it snapshots. */
  ghost predicate Enabled(w: World, d: J.Decider, y: System, x: Step)
    requires Shaped(w, y)
  {
    match x
    case RouterHandles(s) => s < |w.sources| && y.routers[s].next < |w.sources[s]|
    case RouterSendsEvent(s, a) => s < |w.sources| && a < w.topo.entParts && y.routers[s].toAgg[a] != []
    case RouterSendsBase(s, j) => s < |w.sources| && j < w.topo.joinParts && y.routers[s].toJoin[j] != []
    case RouterPromises(s) => s < |w.sources| && Empty(y.routers[s].toAgg) && Empty(y.routers[s].toJoin)
    case RouterCommits(s) =>
      && s < |w.sources| && Empty(y.routers[s].toAgg) && Empty(y.routers[s].toJoin)
      && !y.routers[s].state.sent.Less(y.routers[s].state.last)
    case RouterCrashes(s) => s < |w.sources|
    case AggHandles(a) => a < w.topo.entParts && y.aggs[a].next < |y.events[a]|
                          && A.Handle(a, y.aggs[a].state, y.events[a][y.aggs[a].next]).Some?
    case AggSends(a, j) => a < w.topo.entParts && j < w.topo.joinParts && y.aggs[a].toJoin[j] != []
    case AggCheckpoints(a) => a < w.topo.entParts && Empty(y.aggs[a].toJoin)
    case AggCrashes(a) => a < w.topo.entParts
    case JoinHandles(j) => j < w.topo.joinParts && y.joins[j].next < |y.parts[j]|
                           && J.Step(d, y.joins[j].state, y.parts[j][y.joins[j].next]).Some?
    case JoinSends(j) => j < w.topo.joinParts && y.joins[j].out != []
    case JoinCheckpoints(j) => j < w.topo.joinParts && y.joins[j].out == []
    case JoinCrashes(j) => j < w.topo.joinParts
  }

  function Queued<T>(queues: seq<seq<T>>, more: nat -> seq<T>): seq<seq<T>> {
    seq(|queues|, i requires 0 <= i < |queues| => queues[i] + more(i))
  }

  function HandledRouter(w: World, t: RouterTask, s: nat): RouterTask
    requires s < |w.sources| && t.next < |w.sources[s]|
  {
    var e := R.Handle(w.topo, s, t.state, t.next, w.sources[s][t.next]);
    RouterTask(t.next + 1, e.state, Queued(t.toAgg, a => R.ForAggregator(e.outputs, a)),
               Queued(t.toJoin, j => R.ForJoiner(e.outputs, j)))
  }

  function PromisedRouter(w: World, t: RouterTask, s: nat): RouterTask {
    var e := R.Watermarks(s, t.state, w.topo.entParts);
    t.(state := e.state, toAgg := Queued(t.toAgg, a => R.ForAggregator(e.outputs, a)))
  }

  function HandledAgg(w: World, t: AggTask, a: nat, m: M.Msg): AggTask
    requires |t.state.merge.wm| == |t.state.merge.recv| && A.Handle(a, t.state, m).Some?
  {
    var e := A.Handle(a, t.state, m).value;
    AggTask(t.next + 1, e.state, Queued(t.toJoin, j => A.ForJoiner(w.topo, e.parts, j)))
  }

  function HandledJoin(d: J.Decider, t: JoinTask, m: P.Msg): JoinTask
    requires J.Step(d, t.state, m).Some?
  {
    var e := J.Step(d, t.state, m).value;
    if e.decision.None? then JoinTask(t.next + 1, e.state, t.done, t.out)
    else JoinTask(t.next + 1, e.state, t.done + {m.pid}, t.out + [e.decision.value])
  }

  function Popped<T>(queues: seq<seq<T>>, i: nat): seq<seq<T>>
    requires i < |queues| && queues[i] != []
  {
    queues[i := queues[i][1..]]
  }

  function Appended<T>(logs: seq<seq<T>>, i: nat, x: T): seq<seq<T>>
    requires i < |logs|
  {
    logs[i := logs[i] + [x]]
  }

  ghost function Apply(w: World, d: J.Decider, y: System, x: Step): System
    requires Shaped(w, y) && Enabled(w, d, y, x)
  {
    match x
    case RouterHandles(s) => y.(routers := y.routers[s := HandledRouter(w, y.routers[s], s)])
    case RouterSendsEvent(s, a) =>
      var t := y.routers[s];
      y.(routers := y.routers[s := t.(toAgg := Popped(t.toAgg, a))], events := Appended(y.events, a, t.toAgg[a][0]))
    case RouterSendsBase(s, j) =>
      var t := y.routers[s];
      y.(routers := y.routers[s := t.(toJoin := Popped(t.toJoin, j))], parts := Appended(y.parts, j, t.toJoin[j][0]))
    case RouterPromises(s) => y.(routers := y.routers[s := PromisedRouter(w, y.routers[s], s)])
    case RouterCommits(s) => y.(committed := y.committed[s := y.routers[s].next])
    case RouterCrashes(s) => y.(routers := y.routers[s := StartRouter(w, y.committed[s])])
    case AggHandles(a) => y.(aggs := y.aggs[a := HandledAgg(w, y.aggs[a], a, y.events[a][y.aggs[a].next])])
    case AggSends(a, j) =>
      var t := y.aggs[a];
      y.(aggs := y.aggs[a := t.(toJoin := Popped(t.toJoin, j))], parts := Appended(y.parts, j, t.toJoin[j][0]))
    case AggCheckpoints(a) => y.(aggSnaps := y.aggSnaps[a := y.aggs[a]])
    case AggCrashes(a) => y.(aggs := y.aggs[a := y.aggSnaps[a]])
    case JoinHandles(j) => y.(joins := y.joins[j := HandledJoin(d, y.joins[j], y.parts[j][y.joins[j].next])])
    case JoinSends(j) =>
      var t := y.joins[j];
      y.(joins := y.joins[j := t.(out := t.out[1..])], decisions := Appended(y.decisions, j, t.out[0]))
    case JoinCheckpoints(j) => y.(joinSnaps := y.joinSnaps[j := y.joins[j]])
    case JoinCrashes(j) => y.(joins := y.joins[j := y.joinSnaps[j]])
  }
}
