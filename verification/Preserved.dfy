/** Each component's part of the invariant survives its own steps and the growth of the logs. */
module Preserved {
  import opened Domain
  import opened Feed
  import opened System
  import opened Channels
  import opened Invariant
  import M = Merging
  import P = Parts
  import J = Joining
  import R = Routing
  import A = Aggregating
  import RF = RouteFacts
  import AF = AggregateFacts

  // ---- growth -----------------------------------------------------------------

  lemma ToAggGrows(w: World, s: nat, a: nat, t: RouterTask, q: seq<M.Msg>, log: seq<M.Msg>, m: M.Msg)
    requires ToAggOk(w, s, a, t, q, log)
    ensures ToAggOk(w, s, a, t, q, log + [m])
  {
    hide EventChannel, Promising;
    LoggedSnoc(log, m);
    EventChannelGrows(w, s, a, t.next, q, Logged(log), Logged(log + [m]));
    PromisingGrows(w, s, t.next, t.state, q, log, m);
  }

  lemma RouterSeesEvent(w: World, s: nat, t: RouterTask, events: seq<seq<M.Msg>>, parts: seq<seq<P.Msg>>, a: nat,
      m: M.Msg)
    requires RouterOk(w, s, t, events, parts) && a < |events|
    ensures RouterOk(w, s, t, Appended(events, a, m), parts)
  {
    hide ToAggOk, PartChannel, Ahead;
    ToAggGrows(w, s, a, t, t.toAgg[a], events[a], m);
  }

  lemma RouterSeesPart(w: World, s: nat, t: RouterTask, events: seq<seq<M.Msg>>, parts: seq<seq<P.Msg>>, j: nat,
      m: P.Msg)
    requires RouterOk(w, s, t, events, parts) && j < |parts|
    ensures RouterOk(w, s, t, events, Appended(parts, j, m))
  {
    hide ToAggOk, PartChannel, Ahead;
    ArrivedSnoc(parts[j], m);
    PartChannelGrows(w, Router(s), j, t.next, t.toJoin[j], Arrived(parts[j]), Arrived(parts[j] + [m]));
  }

  lemma AggSeesEvent(w: World, a: nat, t: AggTask, log: seq<M.Msg>, parts: seq<seq<P.Msg>>, m: M.Msg)
    requires AggOk(w, a, t, log, parts)
    ensures AggOk(w, a, t, log + [m], parts)
  {
    hide PartChannel, M.Inv;
    SeenPrefix(log, log + [m], t.next);
  }

  lemma AggSeesPart(w: World, a: nat, t: AggTask, log: seq<M.Msg>, parts: seq<seq<P.Msg>>, j: nat, m: P.Msg)
    requires AggOk(w, a, t, log, parts) && j < |parts|
    ensures AggOk(w, a, t, log, Appended(parts, j, m))
  {
    hide PartChannel, M.Inv, Heard;
    ArrivedSnoc(parts[j], m);
    PartChannelGrows(w, Aggregator(a), j, |t.state.applied|, t.toJoin[j], Arrived(parts[j]), Arrived(parts[j] + [m]));
  }

  lemma JoinSeesPart(w: World, d: J.Decider, j: nat, t: JoinTask, log: seq<P.Msg>, decided: seq<J.Decision>, m: P.Msg)
    requires JoinOk(w, d, j, t, log, decided)
    ensures JoinOk(w, d, j, t, log + [m], decided)
  {
    hide J.Inv, AllGood, Announced;
    SeenPartsPrefix(log, log + [m], t.next);
  }

  lemma AnnouncedConcat(pid: string, q: seq<J.Decision>, r: seq<J.Decision>)
    ensures Announced(pid, q + r) <==> Announced(pid, q) || Announced(pid, r)
  {
    if Announced(pid, q) {
      var k :| 0 <= k < |q| && q[k].pid == pid;
      assert (q + r)[k].pid == pid;
    }
    if Announced(pid, r) {
      var k :| 0 <= k < |r| && r[k].pid == pid;
      assert (q + r)[|q| + k].pid == pid;
    }
    if Announced(pid, q + r) {
      var k :| 0 <= k < |q + r| && (q + r)[k].pid == pid;
      assert if k < |q| then q[k].pid == pid else r[k - |q|].pid == pid;
    }
  }

  lemma JoinSeesDecision(w: World, d: J.Decider, j: nat, t: JoinTask, log: seq<P.Msg>, decided: seq<J.Decision>,
      x: J.Decision)
    requires JoinOk(w, d, j, t, log, decided)
    ensures JoinOk(w, d, j, t, log, decided + [x])
  {
    hide J.Inv, AllGood, Announced;
    forall pid | pid in t.done ensures Announced(pid, t.out) || Announced(pid, decided + [x]) {
      AnnouncedConcat(pid, decided, [x]);
    }
  }

  // ---- a router's steps ---------------------------------------------------------

  lemma HandledAhead(w: World, s: nat, n: nat, st: R.State)
    requires Sound(w) && s < |w.sources| && n < |w.sources[s]| && Ahead(w, s, n, st)
    ensures Ahead(w, s, n + 1, R.Handle(w.topo, s, st, n, w.sources[s][n]).state)
    ensures st.last.AtMost(R.Handle(w.topo, s, st, n, w.sources[s][n]).state.last)
    ensures R.Handle(w.topo, s, st, n, w.sources[s][n]).state.sent == st.sent
    ensures w.sources[s][n].Positioned() ==>
              w.sources[s][n].At().AtMost(R.Handle(w.topo, s, st, n, w.sources[s][n]).state.last)
  {
    hide R.EntityOutputs, R.BaseOutput, KeyOf;
    assert w.sources[s][n].Payment? ==> PaymentAt(w, s, n);
  }

  lemma HandledPromising(w: World, s: nat, n: nat, st: R.State, next: R.State, q: seq<M.Msg>, r: seq<M.Msg>,
      log: seq<M.Msg>)
    requires Promising(w, s, n, st, q, log) && n < |w.sources[s]|
    requires st.last.AtMost(next.last) && next.sent == st.sent
    requires w.sources[s][n].Positioned() ==> w.sources[s][n].At().AtMost(next.last)
    ensures Promising(w, s, n + 1, next, q + r, log)
  {
    hide Promised;
  }

  lemma HandledToAgg(w: World, s: nat, a: nat, t: RouterTask, q: seq<M.Msg>, log: seq<M.Msg>)
    requires Sound(w) && s < |w.sources| && t.next < |w.sources[s]| && Ahead(w, s, t.next, t.state)
    requires ToAggOk(w, s, a, t, q, log)
    ensures var e := R.Handle(w.topo, s, t.state, t.next, w.sources[s][t.next]);
            ToAggOk(w, s, a, HandledRouter(w, t, s), q + R.ForAggregator(e.outputs, a), log)
  {
    var e := R.Handle(w.topo, s, t.state, t.next, w.sources[s][t.next]);
    var r := R.ForAggregator(e.outputs, a);
    HandledAhead(w, s, t.next, t.state);
    RF.HandleSendsEvents(w, s, t.next, a, t.state);
    HandledExtends(w, s, a, t.next, q, r, Logged(log));
    HandledPromising(w, s, t.next, t.state, e.state, q, r, log);
    hide Sound, Ahead, EventChannel, Promising, RF.EventsOf, R.Handle;
  }

  lemma HandledExtends(w: World, s: nat, a: nat, n: nat, q: seq<M.Msg>, r: seq<M.Msg>, seen: set<EntityEvent>)
    requires EventChannel(w, s, a, n, q, seen) && RF.EventsOf(w, s, n, a, 0, r)
    ensures EventChannel(w, s, a, n + 1, q + r, seen)
  {
    hide Routed, Ascending;
    WatermarksStillHold(w, s, a, r, {}, seen);
    EventChannelExtends(w, s, a, n, q, r, seen);
  }

  lemma HandledToJoin(w: World, s: nat, j: nat, t: RouterTask, q: seq<P.Msg>, seen: set<P.Msg>)
    requires s < |w.sources| && t.next < |w.sources[s]| && PartChannel(w, Router(s), j, t.next, q, seen)
    ensures var e := R.Handle(w.topo, s, t.state, t.next, w.sources[s][t.next]);
            PartChannel(w, Router(s), j, t.next + 1, q + R.ForJoiner(e.outputs, j), seen)
  {
    hide R.Handle, J.Routed, Numbered, Elements;
    var e := R.Handle(w.topo, s, t.state, t.next, w.sources[s][t.next]);
    RF.HandleSendsBase(w, s, t.next, j, t.state);
    PartChannelExtends(w, Router(s), j, t.next, t.next + 1, q, R.ForJoiner(e.outputs, j), seen);
  }

  lemma RouterHandled(w: World, s: nat, t: RouterTask, events: seq<seq<M.Msg>>, parts: seq<seq<P.Msg>>)
    requires Sound(w) && RouterOk(w, s, t, events, parts) && t.next < |w.sources[s]|
    ensures RouterOk(w, s, HandledRouter(w, t, s), events, parts)
  {
    hide Sound, Ahead, ToAggOk, PartChannel, R.Handle;
    HandledAhead(w, s, t.next, t.state);
    forall a | 0 <= a < w.topo.entParts
      ensures ToAggOk(w, s, a, HandledRouter(w, t, s), HandledRouter(w, t, s).toAgg[a], events[a])
    {
      HandledToAgg(w, s, a, t, t.toAgg[a], events[a]);
    }
    forall j | 0 <= j < w.topo.joinParts
      ensures PartChannel(w, Router(s), j, t.next + 1, HandledRouter(w, t, s).toJoin[j], Arrived(parts[j]))
    {
      HandledToJoin(w, s, j, t, t.toJoin[j], Arrived(parts[j]));
    }
  }

  lemma SentToAgg(w: World, s: nat, a: nat, t: RouterTask, q: seq<M.Msg>, log: seq<M.Msg>)
    requires s < |w.sources| && q != [] && ToAggOk(w, s, a, t, q, log)
    ensures M.Delivers(w, a, Logged(log), q[0])
    ensures ToAggOk(w, s, a, t, q[1..], log + [q[0]])
  {
    EventChannelSends(w, s, a, t.next, q, Logged(log));
    LoggedSnoc(log, q[0]);
    PromiseSent(w, s, a, t, q, log);
    hide EventChannel, Promising;
  }

  lemma PromiseSent(w: World, s: nat, a: nat, t: RouterTask, q: seq<M.Msg>, log: seq<M.Msg>)
    requires q != [] && ToAggOk(w, s, a, t, q, log)
    ensures Promising(w, s, t.next, t.state, q[1..], log + [q[0]])
  {
    hide EventChannel;
    PromisingGrows(w, s, t.next, t.state, q, log, q[0]);
    if q[0] == M.Wm(s, t.state.sent) { assert (log + [q[0]])[|log|] == q[0]; }
  }

  lemma RouterSentEvent(w: World, s: nat, t: RouterTask, events: seq<seq<M.Msg>>, parts: seq<seq<P.Msg>>, a: nat)
    requires RouterOk(w, s, t, events, parts) && a < w.topo.entParts && t.toAgg[a] != []
    ensures M.Delivers(w, a, Logged(events[a]), t.toAgg[a][0])
    ensures RouterOk(w, s, t.(toAgg := Popped(t.toAgg, a)), Appended(events, a, t.toAgg[a][0]), parts)
  {
    hide ToAggOk, PartChannel, Ahead, M.Delivers;
    SentToAgg(w, s, a, t, t.toAgg[a], events[a]);
    forall b | 0 <= b < w.topo.entParts && b != a
      ensures ToAggOk(w, s, b, t.(toAgg := Popped(t.toAgg, a)), t.toAgg[b], events[b]) {
      QueuesAside(w, s, b, t, Popped(t.toAgg, a), t.toAgg[b], events[b]);
    }
    QueuesAside(w, s, a, t, Popped(t.toAgg, a), t.toAgg[a][1..], events[a] + [t.toAgg[a][0]]);
  }

  /** What a channel says does not depend on the other queues. */
  lemma QueuesAside(w: World, s: nat, a: nat, t: RouterTask, queues: seq<seq<M.Msg>>, q: seq<M.Msg>, log: seq<M.Msg>)
    requires ToAggOk(w, s, a, t, q, log)
    ensures ToAggOk(w, s, a, t.(toAgg := queues), q, log)
  {}

  lemma RouterSentBase(w: World, s: nat, t: RouterTask, events: seq<seq<M.Msg>>, parts: seq<seq<P.Msg>>, j: nat)
    requires RouterOk(w, s, t, events, parts) && j < w.topo.joinParts && t.toJoin[j] != []
    ensures J.Delivers(w, j, Arrived(parts[j]), t.toJoin[j][0])
    ensures RouterOk(w, s, t.(toJoin := Popped(t.toJoin, j)), events, Appended(parts, j, t.toJoin[j][0]))
  {
    hide PartChannel, Ahead, J.Delivers, EventChannel, Promising;
    PartChannelSends(w, Router(s), j, t.next, t.toJoin[j], Arrived(parts[j]));
    ArrivedSnoc(parts[j], t.toJoin[j][0]);
  }

  lemma PromisedToAgg(w: World, s: nat, a: nat, t: RouterTask, log: seq<M.Msg>, st: R.State, r: seq<M.Msg>)
    requires Ahead(w, s, t.next, t.state) && ToAggOk(w, s, a, t, [], log)
    requires st == t.state.(sent := t.state.last) && r == [M.Wm(s, t.state.last)]
    ensures EventChannel(w, s, a, t.next, r, Logged(log)) && Promising(w, s, t.next, st, r, log)
  {
    hide Promised;
    EventChannelPromises(w, s, a, t.next, t.state.last, Logged(log));
    hide EventChannel;
  }

  lemma RouterPromised(w: World, s: nat, t: RouterTask, events: seq<seq<M.Msg>>, parts: seq<seq<P.Msg>>)
    requires RouterOk(w, s, t, events, parts) && Empty(t.toAgg)
    ensures RouterOk(w, s, PromisedRouter(w, t, s), events, parts)
  {
    hide PartChannel, EventChannel, Promising;
    var n := PromisedRouter(w, t, s);
    forall a | 0 <= a < w.topo.entParts ensures ToAggOk(w, s, a, n, n.toAgg[a], events[a]) {
      RF.ToEachReaches(s, t.state.last, 0, w.topo.entParts, a);
      if t.state.sent.Less(t.state.last) {
        PromisedToAgg(w, s, a, t, events[a], n.state, n.toAgg[a]);
      }
    }
  }

  lemma CommittedPromising(w: World, s: nat, n: nat, st: R.State, log: seq<M.Msg>)
    requires Promising(w, s, n, st, [], log) && !st.sent.Less(st.last)
    ensures Promising(w, s, n, R.FRESH, [], log)
  {
    forall i: nat | i < n && i < |w.sources[s]| && w.sources[s][i].Positioned()
      ensures w.sources[s][i].At().AtMost(MIN_POS) || Promised(s, w.sources[s][i].At(), log)
    {
      if w.sources[s][i].At().AtMost(st.last) && st.sent != MIN_POS {
        var k :| 0 <= k < |log| && log[k].Wm? && log[k].src == s && st.sent.AtMost(log[k].pos);
        assert w.sources[s][i].At().AtMost(log[k].pos);
      }
    }
  }

  /** A router that starts again from what it committed is as good as the one that committed. */
  lemma RouterCommitted(w: World, s: nat, t: RouterTask, events: seq<seq<M.Msg>>, parts: seq<seq<P.Msg>>)
    requires Sound(w) && RouterOk(w, s, t, events, parts) && Empty(t.toAgg) && Empty(t.toJoin)
    requires !t.state.sent.Less(t.state.last)
    ensures RouterOk(w, s, StartRouter(w, t.next), events, parts)
  {
    hide PartChannel, EventChannel, Promising;
    forall a | 0 <= a < w.topo.entParts ensures ToAggOk(w, s, a, StartRouter(w, t.next), [], events[a]) {
      assert t.toAgg[a] == [];
      CommittedPromising(w, s, t.next, t.state, events[a]);
    }
    forall j | 0 <= j < w.topo.joinParts ensures PartChannel(w, Router(s), j, t.next, [], Arrived(parts[j])) {
      assert t.toJoin[j] == [];
    }
  }

  // ---- an aggregator's steps ------------------------------------------------------

  lemma HandledHears(st: M.State, log: seq<M.Msg>, n: nat)
    requires n < |log| && |st.wm| == |st.recv| && Heard(st.wm, log, n) && M.Step(st, log[n]).Some?
    ensures Heard(M.Step(st, log[n]).value.state.wm, log, n + 1)
  {
    hide M.Low, M.Due, M.NotDue, Insert;
  }

  lemma HandledAggToJoin(w: World, a: nat, j: nat, st: A.State, seen: set<EntityEvent>, m: M.Msg, q: seq<P.Msg>,
      arrived: set<P.Msg>)
    requires Sound(w) && a < w.topo.entParts && M.Inv(w, a, st.merge, seen, st.applied) && M.Delivers(w, a, seen, m)
    requires PartChannel(w, Aggregator(a), j, |st.applied|, q, arrived)
    ensures A.Handle(a, st, m).Some?
    ensures var x := A.Handle(a, st, m).value;
            PartChannel(w, Aggregator(a), j, |x.state.applied|, q + A.ForJoiner(w.topo, x.parts, j), arrived)
  {
    hide Sound, M.Delivers, Merged, Numbered, Elements, J.Routed, A.Handle;
    AF.HandleSendsParts(w, a, j, st, seen, m);
    hide M.Inv;
    var x := A.Handle(a, st, m).value;
    PartChannelExtends(w, Aggregator(a), j, |st.applied|, |x.state.applied|, q, A.ForJoiner(w.topo, x.parts, j),
      arrived);
  }

  lemma AggHandled(w: World, a: nat, t: AggTask, log: seq<M.Msg>, parts: seq<seq<P.Msg>>)
    requires Sound(w) && a < w.topo.entParts && AggOk(w, a, t, log, parts) && t.next < |log| && M.Obeys(w, a, log)
    ensures |t.state.merge.wm| == |t.state.merge.recv| && A.Handle(a, t.state, log[t.next]).Some?
    ensures AggOk(w, a, HandledAgg(w, t, a, log[t.next]), log, parts)
  {
    hide Sound, M.Delivers, M.Obeys, M.Inv, Merged, PartChannel, Heard, AF.PartsOf;
    var m := log[t.next];
    ObeysAt(w, a, log, t.next);
    MergerSizes(w, a, t.state.merge, M.Seen(log, t.next), t.state.applied);
    AF.HandleSendsParts(w, a, 0, t.state, M.Seen(log, t.next), m);
    HandledHears(t.state.merge, log, t.next);
    forall j | 0 <= j < w.topo.joinParts
      ensures PartChannel(w, Aggregator(a), j, |HandledAgg(w, t, a, m).state.applied|,
                HandledAgg(w, t, a, m).toJoin[j], Arrived(parts[j]))
    {
      HandledAggToJoin(w, a, j, t.state, M.Seen(log, t.next), m, t.toJoin[j], Arrived(parts[j]));
    }
  }

  lemma ObeysAt(w: World, a: nat, log: seq<M.Msg>, n: nat)
    requires M.Obeys(w, a, log) && n < |log|
    ensures M.Delivers(w, a, M.Seen(log, n), log[n])
  {}

  lemma PartsObeyAt(w: World, j: nat, log: seq<P.Msg>, n: nat)
    requires PartsObey(w, j, log) && n < |log|
    ensures J.Delivers(w, j, SeenParts(log, n), log[n])
  {}

  lemma MergerSizes(w: World, a: nat, st: M.State, seen: set<EntityEvent>, released: seq<EntityEvent>)
    requires M.Inv(w, a, st, seen, released)
    ensures |st.wm| == |st.recv|
  {}

  lemma AggSent(w: World, a: nat, t: AggTask, log: seq<M.Msg>, parts: seq<seq<P.Msg>>, j: nat)
    requires AggOk(w, a, t, log, parts) && j < w.topo.joinParts && t.toJoin[j] != []
    ensures J.Delivers(w, j, Arrived(parts[j]), t.toJoin[j][0])
    ensures AggOk(w, a, t.(toJoin := Popped(t.toJoin, j)), log, Appended(parts, j, t.toJoin[j][0]))
  {
    hide PartChannel, M.Inv, J.Delivers, Heard;
    PartChannelSends(w, Aggregator(a), j, |t.state.applied|, t.toJoin[j], Arrived(parts[j]));
    ArrivedSnoc(parts[j], t.toJoin[j][0]);
  }

  // ---- a joiner's steps -----------------------------------------------------------

  lemma DecidedIsGood(w: World, d: J.Decider, j: nat, st: J.State, seen: set<P.Msg>, done: set<string>, m: P.Msg)
    requires Sound(w) && J.Inv(w, j, st, seen, done) && J.Delivers(w, j, seen, m)
    requires J.Step(d, st, m).Some? && J.Step(d, st, m).value.decision.Some?
    ensures Good(w, d, J.Step(d, st, m).value.decision.value)
  {
    hide Sound, J.Inv, J.Delivers, J.Step, J.IsReplays;
    forall txns | P.IsHistory(w, txns) ensures J.IsReplays(w, d, txns, J.Step(d, st, m).value.decision.value) {
      J.DecisionIsReplays(w, j, d, st, seen, done, m, txns);
    }
  }

  lemma JoinHandled(w: World, d: J.Decider, j: nat, t: JoinTask, log: seq<P.Msg>, decided: seq<J.Decision>)
    requires Sound(w) && JoinOk(w, d, j, t, log, decided) && t.next < |log| && PartsObey(w, j, log)
    ensures J.Step(d, t.state, log[t.next]).Some?
    ensures JoinOk(w, d, j, HandledJoin(d, t, log[t.next]), log, decided)
  {
    hide Sound, J.Inv, J.Delivers, J.Step, Good, Announced, PartsObey;
    var m := log[t.next];
    PartsObeyAt(w, j, log, t.next);
    J.StepInv(w, j, d, t.state, SeenParts(log, t.next), t.done, m);
    var x := J.Step(d, t.state, m).value;
    if x.decision.Some? {
      DecidedIsGood(w, d, j, t.state, SeenParts(log, t.next), t.done, m);
      J.DecisionNamesPayment(w, j, d, t.state, SeenParts(log, t.next), t.done, m);
      forall pid | pid in t.done + {m.pid}
        ensures Announced(pid, t.out + [x.decision.value]) || Announced(pid, decided) {
        AnnouncedConcat(pid, t.out, [x.decision.value]);
        AnnouncesItself(x.decision.value);
      }
    }
  }

  lemma AnnouncesItself(x: J.Decision)
    ensures Announced(x.pid, [x])
  {
    assert [x][0].pid == x.pid;
  }

  lemma JoinSent(w: World, d: J.Decider, j: nat, t: JoinTask, log: seq<P.Msg>, decided: seq<J.Decision>)
    requires JoinOk(w, d, j, t, log, decided) && t.out != []
    ensures Good(w, d, t.out[0])
    ensures JoinOk(w, d, j, t.(out := t.out[1..]), log, decided + [t.out[0]])
  {
    hide J.Inv, Good, Announced;
    assert t.out == [t.out[0]] + t.out[1..];
    forall pid | pid in t.done ensures Announced(pid, t.out[1..]) || Announced(pid, decided + [t.out[0]]) {
      AnnouncedConcat(pid, [t.out[0]], t.out[1..]);
      AnnouncedConcat(pid, decided, [t.out[0]]);
    }
  }
}
