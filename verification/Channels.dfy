/** How one task's output reaches another's input log: what is produced waits in a queue until it is
acknowledged, a crash empties the queue, and the restarted task produces again from a point it had
already been acknowledged for (internal/stream/runner.go). */
module Channels {
  import opened Domain
  import opened Feed
  import M = Merging
  import P = Parts
  import J = Joining

  // ---- a router's channel to an aggregator -------------------------------------

  function EventsIn(q: seq<M.Msg>): set<EntityEvent> {
    if q == [] then {} else M.Events(q[0]) + EventsIn(q[1..])
  }

  /** Events wait in mark order. */
  ghost predicate Ascending(q: seq<M.Msg>) {
    q != [] ==>
      && (q[0].Ev? ==> forall e :: e in EventsIn(q[1..]) ==> e.MarkOf().After(q[0].event.MarkOf()))
      && Ascending(q[1..])
  }

  function Logged(log: seq<M.Msg>): set<EntityEvent> { M.Seen(log, |log|) }

  /** Everything source s will ever send a at or before p has arrived. */
  ghost predicate Covered(w: World, s: nat, a: nat, p: Pos, seen: set<EntityEvent>) {
    forall d :: Routed(w, a, d) && d.src == s && d.At().AtMost(p) ==> d in seen
  }

  ghost predicate WatermarksHold(w: World, s: nat, a: nat, q: seq<M.Msg>, seen: set<EntityEvent>) {
    q != [] ==>
      && (q[0].Wm? ==> q[0].src == s && Covered(w, s, a, q[0].pos, seen))
      && WatermarksHold(w, s, a, q[1..], seen)
  }

  /** Source s's events for a with offsets below n wait in q or have arrived. */
  ghost predicate EventChannel(w: World, s: nat, a: nat, n: nat, q: seq<M.Msg>, seen: set<EntityEvent>) {
    && Ascending(q) && WatermarksHold(w, s, a, q, seen)
    && (forall e :: e in EventsIn(q) ==> Routed(w, a, e) && e.src == s && e.offset < n)
    && (forall e :: Routed(w, a, e) && e.src == s && e.offset < n ==> e in EventsIn(q) || e in seen)
  }

  lemma {:induction false} WatermarksStillHold(w: World, s: nat, a: nat, q: seq<M.Msg>, seen: set<EntityEvent>,
      more: set<EntityEvent>)
    requires WatermarksHold(w, s, a, q, seen) && seen <= more
    ensures WatermarksHold(w, s, a, q, more)
    decreases |q|
  {
    if q != [] { WatermarksStillHold(w, s, a, q[1..], seen, more); }
  }

  lemma EventChannelGrows(w: World, s: nat, a: nat, n: nat, q: seq<M.Msg>, seen: set<EntityEvent>,
      more: set<EntityEvent>)
    requires EventChannel(w, s, a, n, q, seen) && seen <= more
    ensures EventChannel(w, s, a, n, q, more)
  {
    hide Routed, Ascending;
    WatermarksStillHold(w, s, a, q, seen, more);
  }

  /** The head of the queue may be appended to the log, and the channel goes on without it. */
  lemma EventChannelSends(w: World, s: nat, a: nat, n: nat, q: seq<M.Msg>, seen: set<EntityEvent>)
    requires EventChannel(w, s, a, n, q, seen) && q != [] && s < |w.sources|
    ensures M.Delivers(w, a, seen, q[0])
    ensures EventChannel(w, s, a, n, q[1..], seen + M.Events(q[0]))
  {
    hide Routed;
    WatermarksStillHold(w, s, a, q[1..], seen, seen + M.Events(q[0]));
  }

  lemma {:induction false} EventsInConcat(q: seq<M.Msg>, r: seq<M.Msg>)
    ensures EventsIn(q + r) == EventsIn(q) + EventsIn(r)
    decreases |q|
  {
    if q == [] {
      assert q + r == r;
    } else {
      assert (q + r)[1..] == q[1..] + r;
      EventsInConcat(q[1..], r);
    }
  }

  lemma {:induction false} AscendingConcat(q: seq<M.Msg>, r: seq<M.Msg>)
    requires Ascending(q) && Ascending(r)
    requires forall d, e :: d in EventsIn(q) && e in EventsIn(r) ==> e.MarkOf().After(d.MarkOf())
    ensures Ascending(q + r)
    decreases |q|
  {
    if q == [] {
      assert q + r == r;
    } else {
      assert (q + r)[1..] == q[1..] + r;
      AscendingConcat(q[1..], r);
      EventsInConcat(q[1..], r);
    }
  }

  lemma {:induction false} WatermarksConcat(w: World, s: nat, a: nat, q: seq<M.Msg>, r: seq<M.Msg>,
      seen: set<EntityEvent>)
    requires WatermarksHold(w, s, a, q, seen) && WatermarksHold(w, s, a, r, seen)
    ensures WatermarksHold(w, s, a, q + r, seen)
    decreases |q|
  {
    hide Covered;
    if q == [] {
      assert q + r == r;
    } else {
      assert (q + r)[1..] == q[1..] + r;
      WatermarksConcat(w, s, a, q[1..], r, seen);
    }
  }

  /** The router has handled record n and its events join the queue. */
  lemma EventChannelExtends(w: World, s: nat, a: nat, n: nat, q: seq<M.Msg>, r: seq<M.Msg>, seen: set<EntityEvent>)
    requires EventChannel(w, s, a, n, q, seen)
    requires Ascending(r) && WatermarksHold(w, s, a, r, seen)
    requires forall e :: e in EventsIn(r) <==> Routed(w, a, e) && e.src == s && e.offset == n
    ensures EventChannel(w, s, a, n + 1, q + r, seen)
  {
    hide Routed, Ascending, WatermarksHold, EventsIn;
    EventsInConcat(q, r);
    AscendingConcat(q, r);
    WatermarksConcat(w, s, a, q, r, seen);
  }

  /** With everything acknowledged the router may promise what it has passed. */
  lemma EventChannelPromises(w: World, s: nat, a: nat, n: nat, p: Pos, seen: set<EntityEvent>)
    requires EventChannel(w, s, a, n, [], seen)
    requires forall i: nat :: i >= n && PaymentAt(w, s, i) ==> p.Less(w.sources[s][i].At())
    ensures EventChannel(w, s, a, n, [M.Wm(s, p)], seen)
  {
    assert Covered(w, s, a, p, seen);
    assert [M.Wm(s, p)][1..] == [];
    hide Routed, Covered;
  }

  // ---- a task's channel to a joiner ----------------------------------------------

  datatype Sender = Router(s: nat) | Aggregator(a: nat)

  predicate IsFrom(m: P.Msg, x: Sender) { if m.Base? then x == Router(m.src) else x == Aggregator(m.agg) }

  function Number(m: P.Msg): nat { if m.Base? then m.offset else m.num }

  function Elements(q: seq<P.Msg>): set<P.Msg> {
    if q == [] then {} else {q[0]} + Elements(q[1..])
  }

  ghost predicate Numbered(q: seq<P.Msg>) {
    q != [] ==> (forall m :: m in Elements(q[1..]) ==> Number(q[0]) < Number(m)) && Numbered(q[1..])
  }

  /** The sender's parts for j numbered below n wait in q or have arrived. */
  ghost predicate PartChannel(w: World, x: Sender, j: nat, n: nat, q: seq<P.Msg>, seen: set<P.Msg>) {
    && Numbered(q)
    && (forall m :: m in Elements(q) ==> J.Routed(w, j, m) && IsFrom(m, x) && Number(m) < n)
    && (forall m :: J.Routed(w, j, m) && IsFrom(m, x) && Number(m) < n ==> m in Elements(q) || m in seen)
  }

  lemma PartChannelGrows(w: World, x: Sender, j: nat, n: nat, q: seq<P.Msg>, seen: set<P.Msg>, more: set<P.Msg>)
    requires PartChannel(w, x, j, n, q, seen) && seen <= more
    ensures PartChannel(w, x, j, n, q, more)
  {
    hide J.Routed, Numbered, Elements;
  }

  lemma PartChannelSends(w: World, x: Sender, j: nat, n: nat, q: seq<P.Msg>, seen: set<P.Msg>)
    requires PartChannel(w, x, j, n, q, seen) && q != []
    ensures J.Delivers(w, j, seen, q[0])
    ensures PartChannel(w, x, j, n, q[1..], seen + {q[0]})
  {
    hide J.Routed;
    forall l | J.Routed(w, j, l) && J.SentBefore(l, q[0]) ensures l in seen {
      assert IsFrom(l, x) && Number(l) < Number(q[0]);
    }
  }

  lemma {:induction false} ElementsConcat(q: seq<P.Msg>, r: seq<P.Msg>)
    ensures Elements(q + r) == Elements(q) + Elements(r)
    decreases |q|
  {
    if q == [] {
      assert q + r == r;
    } else {
      assert (q + r)[1..] == q[1..] + r;
      ElementsConcat(q[1..], r);
    }
  }

  lemma {:induction false} NumberedConcat(q: seq<P.Msg>, r: seq<P.Msg>)
    requires Numbered(q) && Numbered(r)
    requires forall l, m :: l in Elements(q) && m in Elements(r) ==> Number(l) < Number(m)
    ensures Numbered(q + r)
    decreases |q|
  {
    if q == [] {
      assert q + r == r;
    } else {
      assert (q + r)[1..] == q[1..] + r;
      NumberedConcat(q[1..], r);
      ElementsConcat(q[1..], r);
    }
  }

  /** The sender has produced its outputs numbered n to k, and they join the queue. */
  lemma PartChannelExtends(w: World, x: Sender, j: nat, n: nat, k: nat, q: seq<P.Msg>, r: seq<P.Msg>, seen: set<P.Msg>)
    requires PartChannel(w, x, j, n, q, seen) && n <= k && Numbered(r)
    requires forall m :: m in Elements(r) <==> J.Routed(w, j, m) && IsFrom(m, x) && n <= Number(m) < k
    ensures PartChannel(w, x, j, k, q + r, seen)
  {
    hide J.Routed, Numbered, Elements;
    ElementsConcat(q, r);
    NumberedConcat(q, r);
  }
}
