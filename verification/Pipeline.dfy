/** Every run of the pipeline keeps the invariant, and what follows from it. */
module Pipeline {
  import opened Feed
  import opened System
  import opened Channels
  import opened Invariant
  import opened Preserved
  import M = Merging
  import P = Parts
  import J = Joining

  // ---- one component at a time ---------------------------------------------------

  lemma GrowEvents(w: World, d: J.Decider, y: System, a: nat, m: M.Msg)
    requires Inv(w, d, y) && a < w.topo.entParts && M.Delivers(w, a, Logged(y.events[a]), m)
    ensures Inv(w, d, y.(events := Appended(y.events, a, m)))
  {
    hide RouterOk, AggOk, JoinOk, M.Delivers, M.Obeys, PartsObey, AllGood;
    var z := y.(events := Appended(y.events, a, m));
    M.ObeysSnoc(w, a, y.events[a], m);
    forall s | 0 <= s < |w.sources|
      ensures RouterOk(w, s, y.routers[s], z.events, y.parts)
      ensures RouterOk(w, s, StartRouter(w, y.committed[s]), z.events, y.parts)
    {
      RouterSeesEvent(w, s, y.routers[s], y.events, y.parts, a, m);
      RouterSeesEvent(w, s, StartRouter(w, y.committed[s]), y.events, y.parts, a, m);
    }
    AggSeesEvent(w, a, y.aggs[a], y.events[a], y.parts, m);
    AggSeesEvent(w, a, y.aggSnaps[a], y.events[a], y.parts, m);
  }

  lemma GrowParts(w: World, d: J.Decider, y: System, j: nat, m: P.Msg)
    requires Inv(w, d, y) && j < w.topo.joinParts && J.Delivers(w, j, Arrived(y.parts[j]), m)
    ensures Inv(w, d, y.(parts := Appended(y.parts, j, m)))
  {
    hide RouterOk, AggOk, JoinOk, J.Delivers, M.Obeys, PartsObey, AllGood;
    var z := y.(parts := Appended(y.parts, j, m));
    PartsObeySnoc(w, j, y.parts[j], m);
    forall s | 0 <= s < |w.sources|
      ensures RouterOk(w, s, y.routers[s], y.events, z.parts)
      ensures RouterOk(w, s, StartRouter(w, y.committed[s]), y.events, z.parts)
    {
      RouterSeesPart(w, s, y.routers[s], y.events, y.parts, j, m);
      RouterSeesPart(w, s, StartRouter(w, y.committed[s]), y.events, y.parts, j, m);
    }
    forall a | 0 <= a < w.topo.entParts
      ensures AggOk(w, a, y.aggs[a], y.events[a], z.parts) && AggOk(w, a, y.aggSnaps[a], y.events[a], z.parts)
    {
      AggSeesPart(w, a, y.aggs[a], y.events[a], y.parts, j, m);
      AggSeesPart(w, a, y.aggSnaps[a], y.events[a], y.parts, j, m);
    }
    JoinSeesPart(w, d, j, y.joins[j], y.parts[j], y.decisions[j], m);
    JoinSeesPart(w, d, j, y.joinSnaps[j], y.parts[j], y.decisions[j], m);
  }

  lemma GrowDecisions(w: World, d: J.Decider, y: System, j: nat, x: J.Decision)
    requires Inv(w, d, y) && j < w.topo.joinParts && Good(w, d, x)
    ensures Inv(w, d, y.(decisions := Appended(y.decisions, j, x)))
  {
    hide RouterOk, AggOk, JoinOk, M.Obeys, PartsObey, Good;
    JoinSeesDecision(w, d, j, y.joins[j], y.parts[j], y.decisions[j], x);
    JoinSeesDecision(w, d, j, y.joinSnaps[j], y.parts[j], y.decisions[j], x);
  }

  lemma RouterShaped(w: World, s: nat, t: RouterTask, events: seq<seq<M.Msg>>, parts: seq<seq<P.Msg>>)
    requires RouterOk(w, s, t, events, parts)
    ensures |t.toAgg| == w.topo.entParts && |t.toJoin| == w.topo.joinParts
  {}

  lemma AggShaped(w: World, a: nat, t: AggTask, log: seq<M.Msg>, parts: seq<seq<P.Msg>>)
    requires AggOk(w, a, t, log, parts)
    ensures |t.toJoin| == w.topo.joinParts && |t.state.merge.wm| == |t.state.merge.recv|
  {}

  lemma SetRouter(w: World, d: J.Decider, y: System, s: nat, t: RouterTask)
    requires Inv(w, d, y) && s < |w.sources| && RouterOk(w, s, t, y.events, y.parts)
    ensures Inv(w, d, y.(routers := y.routers[s := t]))
  {
    hide RouterOk, AggOk, JoinOk, M.Obeys, PartsObey, AllGood;
    RouterShaped(w, s, t, y.events, y.parts);
  }

  lemma SetCommitted(w: World, d: J.Decider, y: System, s: nat, n: nat)
    requires Inv(w, d, y) && s < |w.sources| && RouterOk(w, s, StartRouter(w, n), y.events, y.parts)
    ensures Inv(w, d, y.(committed := y.committed[s := n]))
  {
    hide RouterOk, AggOk, JoinOk, M.Obeys, PartsObey, AllGood;
  }

  lemma SetAgg(w: World, d: J.Decider, y: System, a: nat, t: AggTask)
    requires Inv(w, d, y) && a < w.topo.entParts && AggOk(w, a, t, y.events[a], y.parts)
    ensures Inv(w, d, y.(aggs := y.aggs[a := t]))
  {
    hide RouterOk, AggOk, JoinOk, M.Obeys, PartsObey, AllGood;
    AggShaped(w, a, t, y.events[a], y.parts);
  }

  lemma SetAggSnap(w: World, d: J.Decider, y: System, a: nat, t: AggTask)
    requires Inv(w, d, y) && a < w.topo.entParts && AggOk(w, a, t, y.events[a], y.parts) && Empty(t.toJoin)
    ensures Inv(w, d, y.(aggSnaps := y.aggSnaps[a := t]))
  {
    hide RouterOk, AggOk, JoinOk, M.Obeys, PartsObey, AllGood;
    AggShaped(w, a, t, y.events[a], y.parts);
  }

  lemma SetJoin(w: World, d: J.Decider, y: System, j: nat, t: JoinTask)
    requires Inv(w, d, y) && j < w.topo.joinParts && JoinOk(w, d, j, t, y.parts[j], y.decisions[j])
    ensures Inv(w, d, y.(joins := y.joins[j := t]))
  {
    hide RouterOk, AggOk, JoinOk, M.Obeys, PartsObey, AllGood;
  }

  lemma SetJoinSnap(w: World, d: J.Decider, y: System, j: nat, t: JoinTask)
    requires Inv(w, d, y) && j < w.topo.joinParts && JoinOk(w, d, j, t, y.parts[j], y.decisions[j]) && t.out == []
    ensures Inv(w, d, y.(joinSnaps := y.joinSnaps[j := t]))
  {
    hide RouterOk, AggOk, JoinOk, M.Obeys, PartsObey, AllGood;
  }

  // ---- one step --------------------------------------------------------------------

  lemma RouterStepInv(w: World, d: J.Decider, y: System, x: Step)
    requires Sound(w) && Inv(w, d, y) && Enabled(w, d, y, x)
    requires x.RouterHandles? || x.RouterPromises? || x.RouterCommits? || x.RouterCrashes?
    ensures Inv(w, d, Apply(w, d, y, x))
  {
    hide Sound, RouterOk, AggsOk, JoinsOk, LogsOk;
    var t := y.routers[x.s];
    match x
    case RouterHandles(s) =>
      SetsIn(w, s, t, y.events, y.parts);
      RouterHandled(w, s, t, y.events, y.parts);
      SetRouter(w, d, y, s, HandledRouter(w, t, s));
    case RouterPromises(s) =>
      RouterPromised(w, s, t, y.events, y.parts);
      SetRouter(w, d, y, s, PromisedRouter(w, t, s));
    case RouterCommits(s) =>
      RouterCommitted(w, s, t, y.events, y.parts);
      SetCommitted(w, d, y, s, t.next);
    case RouterCrashes(s) =>
      SetRouter(w, d, y, s, StartRouter(w, y.committed[s]));
  }

  lemma SetsIn(w: World, s: nat, t: RouterTask, events: seq<seq<M.Msg>>, parts: seq<seq<P.Msg>>)
    requires RouterOk(w, s, t, events, parts)
    ensures t.next <= |w.sources[s]|
  {}

  lemma SendStepInv(w: World, d: J.Decider, y: System, x: Step)
    requires Sound(w) && Inv(w, d, y) && Enabled(w, d, y, x)
    requires x.RouterSendsEvent? || x.RouterSendsBase? || x.AggSends? || x.JoinSends?
    ensures Inv(w, d, Apply(w, d, y, x))
  {
    hide Sound, RouterOk, AggOk, JoinOk, LogsOk, M.Delivers, J.Delivers, Good;
    match x
    case RouterSendsEvent(s, a) =>
      var t := y.routers[s];
      RouterSentEvent(w, s, t, y.events, y.parts, a);
      GrowEvents(w, d, y, a, t.toAgg[a][0]);
      SetRouter(w, d, y.(events := Appended(y.events, a, t.toAgg[a][0])), s, t.(toAgg := Popped(t.toAgg, a)));
    case RouterSendsBase(s, j) =>
      var t := y.routers[s];
      RouterSentBase(w, s, t, y.events, y.parts, j);
      GrowParts(w, d, y, j, t.toJoin[j][0]);
      SetRouter(w, d, y.(parts := Appended(y.parts, j, t.toJoin[j][0])), s, t.(toJoin := Popped(t.toJoin, j)));
    case AggSends(a, j) =>
      var t := y.aggs[a];
      AggSent(w, a, t, y.events[a], y.parts, j);
      GrowParts(w, d, y, j, t.toJoin[j][0]);
      SetAgg(w, d, y.(parts := Appended(y.parts, j, t.toJoin[j][0])), a, t.(toJoin := Popped(t.toJoin, j)));
    case JoinSends(j) =>
      var t := y.joins[j];
      JoinSent(w, d, j, t, y.parts[j], y.decisions[j]);
      GrowDecisions(w, d, y, j, t.out[0]);
      SetJoin(w, d, y.(decisions := Appended(y.decisions, j, t.out[0])), j, t.(out := t.out[1..]));
  }

  lemma TaskStepInv(w: World, d: J.Decider, y: System, x: Step)
    requires Sound(w) && Inv(w, d, y) && Enabled(w, d, y, x)
    requires x.AggHandles? || x.AggCheckpoints? || x.AggCrashes?
             || x.JoinHandles? || x.JoinCheckpoints? || x.JoinCrashes?
    ensures Inv(w, d, Apply(w, d, y, x))
  {
    hide Sound, RouterOk, AggOk, JoinOk, M.Obeys, PartsObey, AllGood;
    match x
    case AggHandles(a) =>
      AggHandled(w, a, y.aggs[a], y.events[a], y.parts);
      SetAgg(w, d, y, a, HandledAgg(w, y.aggs[a], a, y.events[a][y.aggs[a].next]));
    case AggCheckpoints(a) => SetAggSnap(w, d, y, a, y.aggs[a]);
    case AggCrashes(a) => SetAgg(w, d, y, a, y.aggSnaps[a]);
    case JoinHandles(j) =>
      JoinHandled(w, d, j, y.joins[j], y.parts[j], y.decisions[j]);
      SetJoin(w, d, y, j, HandledJoin(d, y.joins[j], y.parts[j][y.joins[j].next]));
    case JoinCheckpoints(j) => SetJoinSnap(w, d, y, j, y.joins[j]);
    case JoinCrashes(j) => SetJoin(w, d, y, j, y.joinSnaps[j]);
  }

  lemma StepInv(w: World, d: J.Decider, y: System, x: Step)
    requires Sound(w) && Inv(w, d, y) && Enabled(w, d, y, x)
    ensures Inv(w, d, Apply(w, d, y, x))
  {
    hide Sound, Inv, Enabled, Apply;
    match x
    case RouterHandles(_) | RouterPromises(_) | RouterCommits(_) | RouterCrashes(_) => RouterStepInv(w, d, y, x);
    case RouterSendsEvent(_, _) | RouterSendsBase(_, _) | AggSends(_, _) | JoinSends(_) => SendStepInv(w, d, y, x);
    case _ => TaskStepInv(w, d, y, x);
  }

  lemma StartRouterOk(w: World, s: nat, events: seq<seq<M.Msg>>, parts: seq<seq<P.Msg>>)
    requires Sound(w) && s < |w.sources| && events == seq(w.topo.entParts, a => [])
    requires parts == seq(w.topo.joinParts, j => [])
    ensures RouterOk(w, s, StartRouter(w, 0), events, parts)
  {
    hide Routed, J.Routed;
  }

  lemma StartAggOk(w: World, a: nat, parts: seq<seq<P.Msg>>)
    requires Sound(w) && parts == seq(w.topo.joinParts, j => [])
    ensures AggOk(w, a, StartAgg(w), [], parts) && Empty(StartAgg(w).toJoin)
  {
    M.FreshInv(w, a);
    hide Sound, M.Inv, J.Routed, M.Fresh;
  }

  lemma StartJoinOk(w: World, d: J.Decider, j: nat)
    ensures JoinOk(w, d, j, START_JOIN, [], [])
  {
    J.FreshInv(w, j);
    hide J.Inv;
  }

  lemma StartInv(w: World, d: J.Decider)
    requires Sound(w)
    ensures Inv(w, d, Start(w))
  {
    hide RouterOk, AggOk, JoinOk, StartAgg, StartRouter;
    var y := Start(w);
    forall s | 0 <= s < |w.sources|
      ensures RouterOk(w, s, y.routers[s], y.events, y.parts)
      ensures RouterOk(w, s, StartRouter(w, y.committed[s]), y.events, y.parts)
      ensures |y.routers[s].toAgg| == w.topo.entParts && |y.routers[s].toJoin| == w.topo.joinParts
    {
      assert y.routers[s] == StartRouter(w, 0) && y.committed[s] == 0;
      StartRouterOk(w, s, y.events, y.parts);
      RouterShaped(w, s, StartRouter(w, 0), y.events, y.parts);
    }
    forall a | 0 <= a < w.topo.entParts
      ensures y.aggs[a] == y.aggSnaps[a] && AggOk(w, a, y.aggs[a], y.events[a], y.parts) && Empty(y.aggSnaps[a].toJoin)
      ensures |y.aggs[a].toJoin| == w.topo.joinParts && |y.aggs[a].state.merge.wm| == |y.aggs[a].state.merge.recv|
    {
      assert y.aggs[a] == StartAgg(w) && y.aggSnaps[a] == StartAgg(w) && y.events[a] == [];
      StartAggOk(w, a, y.parts);
      AggShaped(w, a, StartAgg(w), [], y.parts);
    }
    forall j | 0 <= j < w.topo.joinParts ensures JoinOk(w, d, j, START_JOIN, [], []) { StartJoinOk(w, d, j); }
    assert Shaped(w, y);
    assert JoinsOk(w, d, y);
  }

  // ---- runs --------------------------------------------------------------------------

  ghost predicate Legal(w: World, d: J.Decider, y: System, steps: seq<Step>)
    decreases |steps|
  {
    steps != [] ==> Shaped(w, y) && Enabled(w, d, y, steps[0]) && Legal(w, d, Apply(w, d, y, steps[0]), steps[1..])
  }

  ghost function End(w: World, d: J.Decider, y: System, steps: seq<Step>): System
    requires Legal(w, d, y, steps)
    decreases |steps|
  {
    if steps == [] then y else End(w, d, Apply(w, d, y, steps[0]), steps[1..])
  }

  lemma {:induction false} RunInv(w: World, d: J.Decider, y: System, steps: seq<Step>)
    requires Sound(w) && Inv(w, d, y) && Legal(w, d, y, steps)
    ensures Inv(w, d, End(w, d, y, steps))
    decreases |steps|
  {
    hide Sound, Inv, Enabled, Apply;
    if steps != [] {
      StepInv(w, d, y, steps[0]);
      RunInv(w, d, Apply(w, d, y, steps[0]), steps[1..]);
    }
  }

  /** A state some run from the start reaches. */
  ghost predicate Reachable(w: World, d: J.Decider, y: System) {
    exists steps :: Legal(w, d, Start(w), steps) && y == End(w, d, Start(w), steps)
  }

  lemma ReachableInv(w: World, d: J.Decider, y: System)
    requires Sound(w) && Reachable(w, d, y)
    ensures Inv(w, d, y)
  {
    hide Sound, Inv;
    var steps :| Legal(w, d, Start(w), steps) && y == End(w, d, Start(w), steps);
    StartInv(w, d);
    RunInv(w, d, Start(w), steps);
  }
}
