/** What every reachable state of the pipeline satisfies, component by component. */
module Invariant {
  import opened Domain
  import opened Feed
  import opened System
  import opened Channels
  import M = Merging
  import P = Parts
  import J = Joining
  import R = Routing

  /** The parts among a log's first n records. */
  function SeenParts(log: seq<P.Msg>, n: nat): set<P.Msg>
    requires n <= |log|
  {
    if n == 0 then {} else SeenParts(log, n - 1) + {log[n - 1]}
  }

  function Arrived(log: seq<P.Msg>): set<P.Msg> { SeenParts(log, |log|) }

  ghost predicate PartsObey(w: World, j: nat, log: seq<P.Msg>) {
    forall i :: 0 <= i < |log| ==> J.Delivers(w, j, SeenParts(log, i), log[i])
  }

  // ---- routers ------------------------------------------------------------

  /** Source s has promised at least position p in this log. */
  ghost predicate Promised(s: nat, p: Pos, log: seq<M.Msg>) {
    exists k :: 0 <= k < |log| && log[k].Wm? && log[k].src == s && p.AtMost(log[k].pos)
  }

  /** No payment to come is at or before the position the router is about to promise. */
  ghost predicate Ahead(w: World, s: nat, n: nat, st: R.State) {
    && (forall i: nat :: i >= n && PaymentAt(w, s, i) ==> st.last.Less(w.sources[s][i].At()))
    && st.sent.AtMost(st.last) && st.violations == 0
  }

  /** Positions passed are promised, or will be: they are no later than the next promise. */
  ghost predicate Promising(w: World, s: nat, n: nat, st: R.State, q: seq<M.Msg>, log: seq<M.Msg>) {
    && s < |w.sources|
    && (forall i: nat :: i < n && i < |w.sources[s]| && w.sources[s][i].Positioned() ==>
          w.sources[s][i].At().AtMost(st.last) || Promised(s, w.sources[s][i].At(), log))
    && (st.sent == MIN_POS || M.Wm(s, st.sent) in q || Promised(s, st.sent, log))
  }

  ghost predicate ToAggOk(w: World, s: nat, a: nat, t: RouterTask, q: seq<M.Msg>, log: seq<M.Msg>) {
    EventChannel(w, s, a, t.next, q, Logged(log)) && Promising(w, s, t.next, t.state, q, log)
  }

  ghost predicate RouterOk(w: World, s: nat, t: RouterTask, events: seq<seq<M.Msg>>, parts: seq<seq<P.Msg>>) {
    && s < |w.sources| && t.next <= |w.sources[s]| && Ahead(w, s, t.next, t.state)
    && |t.toAgg| == |events| == w.topo.entParts && |t.toJoin| == |parts| == w.topo.joinParts
    && (forall a :: 0 <= a < w.topo.entParts ==> ToAggOk(w, s, a, t, t.toAgg[a], events[a]))
    && (forall j :: 0 <= j < w.topo.joinParts ==> PartChannel(w, Router(s), j, t.next, t.toJoin[j], Arrived(parts[j])))
  }

  // ---- aggregators ----------------------------------------------------------

  /** Every promise handled is in the watermarks. */
  ghost predicate Heard(wm: seq<Pos>, log: seq<M.Msg>, n: nat) {
    n <= |log| && forall k :: 0 <= k < n && log[k].Wm? ==> log[k].src < |wm| && log[k].pos.AtMost(wm[log[k].src])
  }

  ghost predicate AggOk(w: World, a: nat, t: AggTask, log: seq<M.Msg>, parts: seq<seq<P.Msg>>) {
    && t.next <= |log| && Heard(t.state.merge.wm, log, t.next)
    && M.Inv(w, a, t.state.merge, M.Seen(log, t.next), t.state.applied)
    && |t.toJoin| == |parts| == w.topo.joinParts
    && (forall j :: 0 <= j < w.topo.joinParts ==>
          PartChannel(w, Aggregator(a), j, |t.state.applied|, t.toJoin[j], Arrived(parts[j])))
  }

  // ---- joiners --------------------------------------------------------------

  /** A decision is the one every replay of the same payments leads to. */
  ghost predicate Good(w: World, d: J.Decider, x: J.Decision) {
    forall txns :: P.IsHistory(w, txns) ==> J.IsReplays(w, d, txns, x)
  }

  ghost predicate Announced(pid: string, q: seq<J.Decision>) {
    exists k :: 0 <= k < |q| && q[k].pid == pid
  }

  ghost predicate AllGood(w: World, d: J.Decider, q: seq<J.Decision>) {
    forall k :: 0 <= k < |q| ==> Good(w, d, q[k])
  }

  ghost predicate JoinOk(w: World, d: J.Decider, j: nat, t: JoinTask, log: seq<P.Msg>, decided: seq<J.Decision>) {
    && t.next <= |log|
    && J.Inv(w, j, t.state, SeenParts(log, t.next), t.done)
    && AllGood(w, d, t.out)
    && (forall pid :: pid in t.done ==> Announced(pid, t.out) || Announced(pid, decided))
  }

  // ---- the system -------------------------------------------------------------

  ghost predicate LogsOk(w: World, d: J.Decider, y: System) {
    && (forall a :: 0 <= a < |y.events| ==> M.Obeys(w, a, y.events[a]))
    && (forall j :: 0 <= j < |y.parts| ==> PartsObey(w, j, y.parts[j]))
    && (forall j :: 0 <= j < |y.decisions| ==> AllGood(w, d, y.decisions[j]))
  }

  ghost predicate RoutersOk(w: World, y: System)
    requires Shaped(w, y)
  {
    forall s :: 0 <= s < |w.sources| ==>
      && RouterOk(w, s, y.routers[s], y.events, y.parts)
      && RouterOk(w, s, StartRouter(w, y.committed[s]), y.events, y.parts)
  }

  ghost predicate AggsOk(w: World, y: System)
    requires Shaped(w, y)
  {
    forall a :: 0 <= a < w.topo.entParts ==>
      && AggOk(w, a, y.aggs[a], y.events[a], y.parts)
      && AggOk(w, a, y.aggSnaps[a], y.events[a], y.parts) && Empty(y.aggSnaps[a].toJoin)
  }

  ghost predicate JoinsOk(w: World, d: J.Decider, y: System)
    requires Shaped(w, y)
  {
    forall j :: 0 <= j < w.topo.joinParts ==>
      && JoinOk(w, d, j, y.joins[j], y.parts[j], y.decisions[j])
      && JoinOk(w, d, j, y.joinSnaps[j], y.parts[j], y.decisions[j]) && y.joinSnaps[j].out == []
  }

  ghost predicate Inv(w: World, d: J.Decider, y: System) {
    Shaped(w, y) && LogsOk(w, d, y) && RoutersOk(w, y) && AggsOk(w, y) && JoinsOk(w, d, y)
  }

  // ---- logs only grow -----------------------------------------------------------

  lemma {:induction false} SeenPartsPrefix(log: seq<P.Msg>, more: seq<P.Msg>, n: nat)
    requires log <= more && n <= |log|
    ensures SeenParts(log, n) == SeenParts(more, n)
    decreases n
  {
    if n > 0 { SeenPartsPrefix(log, more, n - 1); }
  }

  lemma {:induction false} SeenPrefix(log: seq<M.Msg>, more: seq<M.Msg>, n: nat)
    requires log <= more && n <= |log|
    ensures M.Seen(log, n) == M.Seen(more, n)
    decreases n
  {
    if n > 0 { SeenPrefix(log, more, n - 1); }
  }

  lemma ArrivedSnoc(log: seq<P.Msg>, m: P.Msg)
    ensures Arrived(log + [m]) == Arrived(log) + {m}
  {
    SeenPartsPrefix(log, log + [m], |log|);
  }

  lemma LoggedSnoc(log: seq<M.Msg>, m: M.Msg)
    ensures Logged(log + [m]) == Logged(log) + M.Events(m)
  {
    SeenPrefix(log, log + [m], |log|);
  }

  lemma PartsObeySnoc(w: World, j: nat, log: seq<P.Msg>, m: P.Msg)
    requires PartsObey(w, j, log) && J.Delivers(w, j, Arrived(log), m)
    ensures PartsObey(w, j, log + [m])
  {
    hide J.Delivers, SeenParts;
    forall i | 0 <= i < |log| + 1 ensures J.Delivers(w, j, SeenParts(log + [m], i), (log + [m])[i]) {
      SeenPartsPrefix(log, log + [m], i);
    }
  }

  lemma PromisedGrows(s: nat, p: Pos, log: seq<M.Msg>, m: M.Msg)
    requires Promised(s, p, log)
    ensures Promised(s, p, log + [m])
  {
    var k :| 0 <= k < |log| && log[k].Wm? && log[k].src == s && p.AtMost(log[k].pos);
    assert (log + [m])[k] == log[k];
  }

  lemma PromisingGrows(w: World, s: nat, n: nat, st: R.State, q: seq<M.Msg>, log: seq<M.Msg>, m: M.Msg)
    requires Promising(w, s, n, st, q, log)
    ensures Promising(w, s, n, st, q, log + [m])
  {
    hide Promised;
    if Promised(s, st.sent, log) { PromisedGrows(s, st.sent, log, m); }
    forall i: nat | i < n && i < |w.sources[s]| && Promised(s, w.sources[s][i].At(), log)
      ensures Promised(s, w.sources[s][i].At(), log + [m])
    {
      PromisedGrows(s, w.sources[s][i].At(), log, m);
    }
  }
}
