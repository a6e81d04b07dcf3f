/** What an aggregator sends is what its partition's merged events call for. */
module AggregateFacts {
  import opened Domain
  import opened Feed
  import opened Aggregating
  import opened Channels
  import M = Merging
  import P = Parts
  import J = Joining

  /** These are the parts of a numbered n to k for joiner j. */
  ghost predicate PartsOf(w: World, a: nat, j: nat, n: nat, k: nat, q: seq<P.Msg>) {
    && Numbered(q)
    && forall m :: m in Elements(q) <==> J.Routed(w, j, m) && IsFrom(m, Aggregator(a)) && n <= Number(m) < k
  }

  lemma RoutedPartIs(w: World, a: nat, j: nat, n: nat, m: P.Msg)
    requires a < w.topo.entParts && n < |Merged(w, a)| && w.topo.joinPart(Merged(w, a)[n].pid) == j
    ensures J.Routed(w, j, m) && IsFrom(m, Aggregator(a)) && Number(m) == n <==> m == P.PartAt(a, Merged(w, a), n)
  {
    hide Merged, P.EventTrail, KeyOf;
  }

  lemma NoRoutedPart(w: World, a: nat, j: nat, n: nat, m: P.Msg)
    requires n < |Merged(w, a)| && w.topo.joinPart(Merged(w, a)[n].pid) != j
    ensures !(J.Routed(w, j, m) && IsFrom(m, Aggregator(a)) && Number(m) == n)
  {
    hide Merged, P.EventTrail, KeyOf;
  }

  lemma {:induction false} PartsFromAre(w: World, a: nat, j: nat, events: seq<EntityEvent>, n: nat)
    requires a < w.topo.entParts && events <= Merged(w, a) && n <= |events|
    ensures PartsOf(w, a, j, n, |events|, ForJoiner(w.topo, PartsFrom(a, events, n), j))
    decreases |events| - n
  {
    hide Merged, J.Routed, P.PartAt;
    if n < |events| {
      PartsFromAre(w, a, j, events, n + 1);
      P.PartOfPrefix(a, events, Merged(w, a), n);
      var p := P.PartAt(a, events, n);
      PartPid(a, events, n);
      var rest := PartsFrom(a, events, n + 1);
      assert ([p] + rest)[1..] == rest;
      var q := ForJoiner(w.topo, rest, j);
      if w.topo.joinPart(p.pid) == j {
        assert ([p] + q)[1..] == q;
        forall m ensures J.Routed(w, j, m) && IsFrom(m, Aggregator(a)) && Number(m) == n <==> m == p {
          RoutedPartIs(w, a, j, n, m);
        }
      } else {
        assert [] + q == q;
        forall m ensures !(J.Routed(w, j, m) && IsFrom(m, Aggregator(a)) && Number(m) == n) {
          NoRoutedPart(w, a, j, n, m);
        }
      }
    }
  }

  lemma PartPid(a: nat, events: seq<EntityEvent>, n: nat)
    requires n < |events|
    ensures var p := P.PartAt(a, events, n); p.Part? && p.pid == events[n].pid && p.agg == a && p.num == n
  {
    hide P.EventTrail, KeyOf;
  }

  /** Handling a record sends each joiner exactly the newly numbered parts routed to it. */
  lemma HandleSendsParts(w: World, a: nat, j: nat, st: State, seen: set<EntityEvent>, m: M.Msg)
    requires Sound(w) && a < w.topo.entParts && M.Inv(w, a, st.merge, seen, st.applied) && M.Delivers(w, a, seen, m)
    ensures Handle(a, st, m).Some?
    ensures var x := Handle(a, st, m).value;
            && M.Inv(w, a, x.state.merge, seen + M.Events(m), x.state.applied)
            && |st.applied| <= |x.state.applied| && x.state.applied <= Merged(w, a)
            && PartsOf(w, a, j, |st.applied|, |x.state.applied|, ForJoiner(w.topo, x.parts, j))
  {
    M.StepInv(w, a, st.merge, seen, st.applied, m);
    var x := Handle(a, st, m).value;
    M.ReleasedIsPrefix(w, a, M.Low(x.state.merge.wm), x.state.applied);
    hide M.Inv, M.Delivers, M.Step, PartsOf, Merged, Sound;
    PartsFromAre(w, a, j, x.state.applied, |st.applied|);
  }
}
