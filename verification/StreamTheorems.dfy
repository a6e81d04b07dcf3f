/** What the stream pipeline promises, in every state any run reaches: whatever the partition counts,
the interleaving, what is sent again and where tasks crash. */
module StreamTheorems {
  import opened Domain
  import opened Feed
  import opened System
  import opened Channels
  import opened Invariant
  import opened Pipeline
  import opened Replay
  import M = Merging
  import P = Parts
  import J = Joining
  import Engine
  import Preserved

  // ---- there is exactly one replay to compare with ----------------------------------

  ghost function PaymentsFrom(w: World, s: nat, i: nat): set<Txn>
    requires s < |w.sources| && i <= |w.sources[s]|
    decreases |w.sources[s]| - i
  {
    if i == |w.sources[s]| then {}
    else (if w.sources[s][i].Payment? then {w.sources[s][i].txn} else {}) + PaymentsFrom(w, s, i + 1)
  }

  ghost function AllPayments(w: World, s: nat): set<Txn>
    requires s <= |w.sources|
    decreases |w.sources| - s
  {
    if s == |w.sources| then {} else PaymentsFrom(w, s, 0) + AllPayments(w, s + 1)
  }

  lemma {:induction false} PaymentsFromHas(w: World, s: nat, i: nat, t: Txn)
    requires s < |w.sources| && i <= |w.sources[s]|
    ensures t in PaymentsFrom(w, s, i) <==> exists k: nat :: k >= i && PaymentAt(w, s, k) && w.sources[s][k].txn == t
    decreases |w.sources[s]| - i
  {
    if i < |w.sources[s]| {
      PaymentsFromHas(w, s, i + 1, t);
      if w.sources[s][i].Payment? { assert PaymentAt(w, s, i); }
    }
  }

  lemma {:induction false} AllPaymentsHas(w: World, s: nat, t: Txn)
    requires s <= |w.sources|
    ensures t in AllPayments(w, s) <==>
              exists r: nat, k: nat :: r >= s && PaymentAt(w, r, k) && w.sources[r][k].txn == t
    decreases |w.sources| - s
  {
    if s < |w.sources| {
      AllPaymentsHas(w, s + 1, t);
      PaymentsFromHas(w, s, 0, t);
    }
  }

  ghost predicate Apart(s: set<Txn>) {
    forall a, b :: a in s && b in s && a != b ==> PosOf(a).Less(PosOf(b)) || PosOf(b).Less(PosOf(a))
  }

  lemma {:induction false} LatestOf(s: set<Txn>) returns (m: Txn)
    requires s != {} && Apart(s)
    ensures m in s && forall a :: a in s && a != m ==> PosOf(a).Less(PosOf(m))
    decreases |s|
  {
    var x :| x in s;
    m := x;
    if s != {x} {
      m := LatestOf(s - {x});
      if PosOf(m).Less(PosOf(x)) { m := x; }
    }
  }

  lemma {:induction false} Arrange(s: set<Txn>) returns (txns: seq<Txn>)
    requires Apart(s)
    ensures Increasing(txns, |txns|) && forall t :: t in txns <==> t in s
    decreases |s|
  {
    txns := [];
    if s != {} {
      var m := LatestOf(s);
      var rest := Arrange(s - {m});
      txns := rest + [m];
      forall i | 0 < i < |txns| ensures PosOf(txns[i - 1]).Less(PosOf(txns[i])) {
        if i == |rest| { assert rest[i - 1] in rest; }
      }
    }
  }

  /** The payments of a sound stream can be replayed. */
  lemma HistoryExists(w: World)
    requires Sound(w)
    ensures exists txns :: P.IsHistory(w, txns)
  {
    var all := AllPayments(w, 0);
    forall t ensures t in all <==> P.IsPayment(w, t) { AllPaymentsHas(w, 0, t); }
    forall a, b | a in all && b in all && a != b ensures PosOf(a).Less(PosOf(b)) || PosOf(b).Less(PosOf(a)) {
      DifferentPositions(w, a, b);
    }
    var txns := Arrange(all);
    assert P.IsHistory(w, txns);
  }

  lemma DifferentPositions(w: World, a: Txn, b: Txn)
    requires Sound(w) && P.IsPayment(w, a) && P.IsPayment(w, b) && a != b
    ensures PosOf(a) != PosOf(b)
  {
    var s: nat, i: nat :| PaymentAt(w, s, i) && w.sources[s][i].txn == a;
    var r: nat, k: nat :| PaymentAt(w, r, k) && w.sources[r][k].txn == b;
    if PosOf(a) == PosOf(b) { assert SamePayment(w.sources[s][i], w.sources[r][k]); }
  }

  // ---- safety ------------------------------------------------------------------------

  /** No event is ever late, no position out of order, and no task ever stops on an error: nothing
  an aggregator or joiner is sent is rejected. */
  lemma NothingGoesWrong(w: World, d: J.Decider, y: System)
    requires Sound(w) && Reachable(w, d, y)
    ensures Shaped(w, y)
    ensures forall s :: 0 <= s < |w.sources| ==> y.routers[s].state.violations == 0
    ensures forall a: nat :: a < w.topo.entParts ==> y.aggs[a].state.merge.late == 0
    ensures forall a: nat :: a < w.topo.entParts && y.aggs[a].next < |y.events[a]| ==> Enabled(w, d, y, AggHandles(a))
    ensures forall j: nat :: j < w.topo.joinParts && y.joins[j].next < |y.parts[j]| ==> Enabled(w, d, y, JoinHandles(j))
  {
    ReachableInv(w, d, y);
    hide Sound, Reachable, Enabled;
    forall s | 0 <= s < |w.sources| ensures y.routers[s].state.violations == 0 {
      assert RouterOk(w, s, y.routers[s], y.events, y.parts);
    }
    forall a: nat | a < w.topo.entParts
      ensures y.aggs[a].state.merge.late == 0 { NeverLate(w, a, y.aggs[a], y.events[a], y.parts); }
    forall a: nat | a < w.topo.entParts && y.aggs[a].next < |y.events[a]| ensures Enabled(w, d, y, AggHandles(a)) {
      AggGoesOn(w, d, y, a);
    }
    forall j: nat | j < w.topo.joinParts && y.joins[j].next < |y.parts[j]| ensures Enabled(w, d, y, JoinHandles(j)) {
      JoinGoesOn(w, d, y, j);
    }
  }

  lemma NeverLate(w: World, a: nat, t: AggTask, log: seq<M.Msg>, parts: seq<seq<P.Msg>>)
    requires AggOk(w, a, t, log, parts)
    ensures t.state.merge.late == 0
  {}

  lemma AggGoesOn(w: World, d: J.Decider, y: System, a: nat)
    requires Sound(w) && Inv(w, d, y) && a < w.topo.entParts && y.aggs[a].next < |y.events[a]|
    ensures Enabled(w, d, y, AggHandles(a))
  {
    hide Sound, AggOk, M.Obeys;
    Preserved.AggHandled(w, a, y.aggs[a], y.events[a], y.parts);
  }

  lemma JoinGoesOn(w: World, d: J.Decider, y: System, j: nat)
    requires Sound(w) && Inv(w, d, y) && j < w.topo.joinParts && y.joins[j].next < |y.parts[j]|
    ensures Enabled(w, d, y, JoinHandles(j))
  {
    hide Sound, JoinOk, PartsObey;
    Preserved.JoinHandled(w, d, j, y.joins[j], y.parts[j], y.decisions[j]);
  }

  /** What an aggregator has applied is always the least part of the sorted merge of its sources: the
  events at or before its minimum watermark. */
  lemma AppliedInOrder(w: World, d: J.Decider, y: System, a: nat)
    requires Sound(w) && Reachable(w, d, y) && a < w.topo.entParts
    ensures Shaped(w, y)
    ensures y.aggs[a].state.applied <= Merged(w, a)
    ensures forall e :: e in y.aggs[a].state.applied
              <==> Routed(w, a, e) && e.At().AtMost(M.Low(y.aggs[a].state.merge.wm))
  {
    ReachableInv(w, d, y);
    hide Sound, Reachable, Routed;
    AppliedIs(w, a, y.aggs[a], y.events[a], y.parts);
    M.ReleasedIsPrefix(w, a, M.Low(y.aggs[a].state.merge.wm), y.aggs[a].state.applied);
  }

  lemma AppliedIs(w: World, a: nat, t: AggTask, log: seq<M.Msg>, parts: seq<seq<P.Msg>>)
    requires AggOk(w, a, t, log, parts)
    ensures M.Released(w, a, M.Low(t.state.merge.wm), t.state.applied)
  {}

  /** A history is in order of time, and of id within a second, each of its payments once. */
  lemma HistoryIsOrdered(w: World, txns: seq<Txn>, i: nat, j: nat)
    requires P.IsHistory(w, txns) && i < j < |txns|
    ensures txns[i].dt < txns[j].dt || (txns[i].dt == txns[j].dt && txns[i].id < txns[j].id)
  {
    P.IncreasingAt(txns, i, j);
    hide P.IsHistory;
  }

  /** Every decision ever written, first or sent again, is of a payment of the stream and was made on
  exactly the row the single-threaded replay writes for it. */
  lemma DecisionsAreReplays(w: World, d: J.Decider, y: System, txns: seq<Txn>, j: nat, k: nat)
    requires Sound(w) && Reachable(w, d, y) && P.IsHistory(w, txns)
    requires j < |y.decisions| && k < |y.decisions[j]|
    ensures J.IsReplays(w, d, txns, y.decisions[j][k])
  {
    hide Sound, Reachable, P.IsHistory, J.IsReplays;
    ReachableInv(w, d, y);
    hide RoutersOk, AggsOk, JoinsOk;
    assert Good(w, d, y.decisions[j][k]);
  }

  /** Two decisions about one payment are the same decision. */
  lemma DecisionsAgree(w: World, d: J.Decider, txns: seq<Txn>, x: J.Decision, y: J.Decision)
    requires Sound(w) && P.IsHistory(w, txns) && J.IsReplays(w, d, txns, x) && J.IsReplays(w, d, txns, y)
    requires x.pid == y.pid
    ensures x == y
  {
    hide P.IsPayment, J.MadeOn, ReplayRow;
    var i: nat, s: nat, o: nat :| i < |txns| && PaymentAt(w, s, o) && w.sources[s][o] == Payment(x.pid, txns[i])
                                  && J.MadeOn(d, ReplayRow(d.cat, txns, i), x);
    var k: nat, r: nat, q: nat :| k < |txns| && PaymentAt(w, r, q) && w.sources[r][q] == Payment(y.pid, txns[k])
                                  && J.MadeOn(d, ReplayRow(d.cat, txns, k), y);
    assert SamePayment(w.sources[s][o], w.sources[r][q]);
    if i < k { P.IncreasingAt(txns, i, k); }
    if k < i { P.IncreasingAt(txns, k, i); }
    J.MadeOnce(d, ReplayRow(d.cat, txns, i), x, y);
  }

  /** In the state a joiner recovers or runs with, a payment is pending or decided, never both; each
  decided payment was counted once, all of it had been received, and it belongs to this joiner. */
  lemma DecidedOnce(w: World, d: J.Decider, y: System, j: nat)
    requires Sound(w) && Reachable(w, d, y) && j < w.topo.joinParts
    ensures Shaped(w, y)
    ensures forall t :: t in {y.joins[j], y.joinSnaps[j]} ==>
              && t.state.decided == |t.done|
              && (forall pid :: pid in t.done ==> pid !in t.state.pending && w.topo.joinPart(pid) == j)
              && (forall pid :: pid in t.done ==> Announced(pid, t.out) || Announced(pid, y.decisions[j]))
  {
    ReachableInv(w, d, y);
    hide Sound, Reachable, Announced;
    forall t | t in {y.joins[j], y.joinSnaps[j]}
      ensures t.state.decided == |t.done|
      ensures forall pid :: pid in t.done ==> pid !in t.state.pending && w.topo.joinPart(pid) == j
    {
      assert JoinOk(w, d, j, t, y.parts[j], y.decisions[j]);
      forall pid | pid in t.done
        ensures w.topo.joinPart(pid) == j { DoneIsHome(w, j, t.state, SeenParts(y.parts[j], t.next), t.done, pid); }
    }
  }

  lemma DoneIsHome(w: World, j: nat, st: J.State, seen: set<P.Msg>, done: set<string>, pid: string)
    requires J.Inv(w, j, st, seen, done) && pid in done
    ensures w.topo.joinPart(pid) == j && pid !in st.pending
  {
    hide J.Holds, P.PartAt, Merged;
    var b :| J.Done(seen, b) && b.pid == pid;
    assert J.Routed(w, j, b);
  }

  // ---- nothing is left pending -----------------------------------------------------------

  predicate EndsWithHeartbeat(w: World, s: nat) {
    s < |w.sources| && exists i :: 0 <= i < |w.sources[s]| && w.sources[s][i] == Heartbeat(MAX_POS)
  }

  /** Every source has been routed to its final heartbeat and everything sent has been handled. */
  ghost predicate Drained(w: World, y: System)
    requires Shaped(w, y)
  {
    && (forall s :: 0 <= s < |w.sources| ==> EndsWithHeartbeat(w, s) && y.committed[s] == |w.sources[s]|)
    && (forall a :: 0 <= a < w.topo.entParts ==> y.aggs[a].next == |y.events[a]| && Empty(y.aggs[a].toJoin))
    && (forall j :: 0 <= j < w.topo.joinParts ==> y.joins[j].next == |y.parts[j]| && y.joins[j].out == [])
  }

  lemma FinalPromise(w: World, s: nat, a: nat, events: seq<seq<M.Msg>>, parts: seq<seq<P.Msg>>)
    requires EndsWithHeartbeat(w, s) && a < w.topo.entParts
    requires RouterOk(w, s, StartRouter(w, |w.sources[s]|), events, parts)
    ensures Promised(s, MAX_POS, events[a])
  {
    hide EventChannel, PartChannel, Ahead, Promised;
    var t := StartRouter(w, |w.sources[s]|);
    assert ToAggOk(w, s, a, t, t.toAgg[a], events[a]);
    var i :| 0 <= i < |w.sources[s]| && w.sources[s][i] == Heartbeat(MAX_POS);
    assert w.sources[s][i].Positioned() && w.sources[s][i].At() == MAX_POS;
  }

  lemma AllReleased(w: World, y: System, a: nat)
    requires Sound(w) && Shaped(w, y) && RoutersOk(w, y) && AggsOk(w, y) && Drained(w, y) && a < w.topo.entParts
    ensures y.aggs[a].state.applied == Merged(w, a)
  {
    hide RouterOk, PartChannel, Sound;
    var t := y.aggs[a];
    var wm := t.state.merge.wm;
    forall s | 0 <= s < |wm| ensures MAX_POS.AtMost(wm[s]) {
      FinalPromise(w, s, a, y.events, y.parts);
      var k :| 0 <= k < |y.events[a]| && y.events[a][k].Wm?
        && y.events[a][k].src == s && MAX_POS.AtMost(y.events[a][k].pos);
      assert y.events[a][k].pos.AtMost(wm[s]);
    }
    M.LowIsLeast(wm, MAX_POS);
    M.ReleasedIsPrefix(w, a, M.Low(wm), t.state.applied);
  }

  lemma BaseArrived(w: World, y: System, j: nat, m: P.Msg)
    requires Shaped(w, y) && RoutersOk(w, y) && Drained(w, y) && j < w.topo.joinParts && J.RoutedBase(w, j, m)
    ensures m in Arrived(y.parts[j])
  {
    hide ToAggOk, Ahead, Numbered;
    var s := m.src;
    assert RouterOk(w, s, StartRouter(w, y.committed[s]), y.events, y.parts);
    assert PartChannel(w, Router(s), j, |w.sources[s]|, [], Arrived(y.parts[j]));
    assert J.Routed(w, j, m) && IsFrom(m, Router(s)) && Number(m) < |w.sources[s]|;
  }

  lemma PartArrived(w: World, y: System, j: nat, m: P.Msg)
    requires Sound(w) && Shaped(w, y) && RoutersOk(w, y) && AggsOk(w, y) && Drained(w, y)
    requires j < w.topo.joinParts && J.RoutedPart(w, j, m)
    ensures m in Arrived(y.parts[j])
  {
    hide Sound, Numbered, M.Inv, Heard, Merged, P.PartAt, RoutersOk;
    var a := m.agg;
    AllReleased(w, y, a);
    assert AggOk(w, a, y.aggs[a], y.events[a], y.parts) && y.aggs[a].toJoin[j] == [];
    assert J.Routed(w, j, m) && IsFrom(m, Aggregator(a)) && Number(m) < |Merged(w, a)|;
  }

  predicate PartFor(m: P.Msg, e: Entity) { m.Part? && m.entity == e }

  lemma PartExists(w: World, j: nat, b: P.Msg, e: Entity)
    requires Sound(w) && J.RoutedBase(w, j, b) && e in b.mask
    ensures exists m :: J.RoutedPart(w, j, m) && m.pid == b.pid && PartFor(m, e)
  {
    var k := KeyOf(b.txn, e).value;
    var a := w.topo.entPart(k);
    var x := EntityEvent(b.src, b.offset, e, b.pid, b.txn);
    MergedIsSorted(w, a);
    hide KeyOf, InOrder, Merged, Engine.PartOf;
    assert Routed(w, a, x);
    var n :| 0 <= n < |Merged(w, a)| && Merged(w, a)[n] == x;
    var m := P.PartAt(a, Merged(w, a), n);
    assert J.RoutedPart(w, j, m) && m.pid == b.pid && PartFor(m, e);
  }

  lemma EverythingFinished(w: World, y: System, j: nat, b: P.Msg)
    requires Sound(w) && Shaped(w, y) && RoutersOk(w, y) && AggsOk(w, y) && Drained(w, y)
    requires j < w.topo.joinParts && J.RoutedBase(w, j, b)
    ensures J.Finished(Arrived(y.parts[j]), b.pid)
  {
    hide Sound, RoutersOk, AggsOk, Drained, J.RoutedBase, J.RoutedPart;
    IsBase(w, j, b);
    BaseArrived(w, y, j, b);
    forall e | e in b.mask ensures J.Has(Arrived(y.parts[j]), b.pid, e) {
      PartExists(w, j, b, e);
      var m :| J.RoutedPart(w, j, m) && m.pid == b.pid && PartFor(m, e);
      PartArrived(w, y, j, m);
    }
    assert J.Done(Arrived(y.parts[j]), b);
  }

  lemma IsBase(w: World, j: nat, m: P.Msg)
    requires J.RoutedBase(w, j, m)
    ensures m.Base?
  {}

  lemma HeldIsComplete(w: World, j: nat, p: J.Pending, seen: set<P.Msg>, b: P.Msg)
    requires Sound(w) && J.RoutedBase(w, j, b) && J.Done(seen, b)
    requires J.Holds(p, seen, b.pid) && forall m :: m in seen ==> J.Routed(w, j, m)
    ensures p.Complete()
  {
    hide Sound, J.RoutedPart, J.RoutedBase;
    assert J.HoldsOf(p, seen, b.pid, b);
    forall e | e in b.mask ensures e in p.values {
      var m :| m in seen && m.Part? && m.pid == b.pid && m.entity == e;
      assert J.HoldsOf(p, seen, b.pid, m);
    }
    forall e | e in p.values ensures e in b.mask {
      var m :| m in seen && m.Part? && m.pid == b.pid && m.entity == e;
      J.RoutedAs(w, j, m);
      J.PartIsAwaited(w, j, m, b);
    }
  }

  /** A finished payment has been decided: it cannot still be waiting. */
  lemma FinishedIsDecided(w: World, j: nat, st: J.State, seen: set<P.Msg>, done: set<string>, b: P.Msg)
    requires Sound(w) && J.Inv(w, j, st, seen, done) && J.RoutedBase(w, j, b) && J.Finished(seen, b.pid)
    ensures b.pid in done && b.pid !in st.pending
  {
    hide Sound, J.RoutedPart, J.RoutedBase, J.Holds;
    var c :| J.Done(seen, c) && c.pid == b.pid;
    J.RoutedAs(w, j, c);
    J.BaseIsUnique(w, j, b, c);
    if b.pid in st.pending { HeldIsComplete(w, j, st.pending[b.pid], seen, b); }
  }

  /** Whatever is pending is about a payment of the stream. */
  lemma PendingIsPayments(w: World, j: nat, st: J.State, seen: set<P.Msg>, done: set<string>, pid: string)
    requires Sound(w) && J.Inv(w, j, st, seen, done) && pid in st.pending
    ensures exists b :: J.RoutedBase(w, j, b) && b.pid == pid
  {
    hide Sound;
    var p := st.pending[pid];
    if p.base.Some? {
      assert J.Routed(w, j, p.base.value);
    } else {
      assert p.values != map[];
      var e :| e in p.values;
      var m :| m in seen && m.Part? && m.pid == pid && m.entity == e;
      PartsBase(w, j, m);
    }
  }

  lemma PartsBase(w: World, j: nat, m: P.Msg)
    requires J.RoutedPart(w, j, m)
    ensures exists b :: J.RoutedBase(w, j, b) && b.pid == m.pid
  {
    J.PartComesFrom(w, j, m);
    hide KeyOf, Merged;
    var e := Merged(w, m.agg)[m.num];
    var b := P.Base(e.src, e.offset, e.pid, P.MaskOf(e.txn), e.txn);
    assert J.RoutedBase(w, j, b) && b.pid == m.pid;
  }

  /** After the final heartbeats, once everything has been handled, no payment is left pending and
  every payment has its decision. */
  lemma NothingLeftPending(w: World, d: J.Decider, y: System, s: nat, i: nat)
    requires Sound(w) && Reachable(w, d, y) && Shaped(w, y) && Drained(w, y)
    ensures forall j :: 0 <= j < w.topo.joinParts ==> y.joins[j].state.pending == map[]
    ensures PaymentAt(w, s, i) ==> Announced(w.sources[s][i].pid, y.decisions[w.topo.joinPart(w.sources[s][i].pid)])
  {
    ReachableInv(w, d, y);
    hide Reachable, LogsOk, J.Inv, AllGood, J.RoutedBase, RoutersOk, AggsOk;
    forall j | 0 <= j < w.topo.joinParts ensures y.joins[j].state.pending == map[] {
      var t := y.joins[j];
      assert JoinOk(w, d, j, t, y.parts[j], y.decisions[j]);
      forall pid ensures pid !in t.state.pending {
        if pid in t.state.pending {
          PendingIsPayments(w, j, t.state, Arrived(y.parts[j]), t.done, pid);
          var b :| J.RoutedBase(w, j, b) && b.pid == pid;
          EverythingFinished(w, y, j, b);
          FinishedIsDecided(w, j, t.state, Arrived(y.parts[j]), t.done, b);
        }
      }
    }
    if PaymentAt(w, s, i) { PaymentIsAnnounced(w, d, y, s, i); }
  }

  lemma PaymentIsAnnounced(w: World, d: J.Decider, y: System, s: nat, i: nat)
    requires Sound(w) && Inv(w, d, y) && Drained(w, y) && PaymentAt(w, s, i)
    ensures w.topo.joinPart(w.sources[s][i].pid) < w.topo.joinParts
    ensures Announced(w.sources[s][i].pid, y.decisions[w.topo.joinPart(w.sources[s][i].pid)])
  {
    hide LogsOk, J.Inv, AllGood, RoutersOk, AggsOk, Announced, KeyOf;
    var r := w.sources[s][i];
    var j := w.topo.joinPart(r.pid);
    var b := P.Base(s, i, r.pid, P.MaskOf(r.txn), r.txn);
    assert J.RoutedBase(w, j, b);
    hide J.RoutedBase;
    var t := y.joins[j];
    assert JoinOk(w, d, j, t, y.parts[j], y.decisions[j]);
    EverythingFinished(w, y, j, b);
    FinishedIsDecided(w, j, t.state, Arrived(y.parts[j]), t.done, b);
    assert !Announced(r.pid, []) by { NothingAnnounced(r.pid); }
  }

  lemma NothingAnnounced(pid: string)
    ensures !Announced(pid, [])
  {}
}
