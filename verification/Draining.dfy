/** The pipeline can always finish: from any state a run reaches, the tasks can handle, send, promise
and commit until nothing is left to do. */
module Draining {
  import opened Feed
  import opened System
  import opened Invariant
  import opened Pipeline
  import opened StreamTheorems
  import M = Merging
  import P = Parts
  import J = Joining
  import R = Routing
  import A = Aggregating

  // ---- what is left to do ----------------------------------------------------------------

  function Total(n: nat, f: nat -> nat): nat { if n == 0 then 0 else Total(n - 1, f) + f(n - 1) }

  lemma {:induction false} TotalSame(n: nat, f: nat -> nat, g: nat -> nat)
    requires forall i: nat :: i < n ==> f(i) == g(i)
    ensures Total(n, f) == Total(n, g)
  {
    if n > 0 { TotalSame(n - 1, f, g); }
  }

  lemma {:induction false} TotalDrops(n: nat, f: nat -> nat, g: nat -> nat, i: nat)
    requires i < n && g(i) < f(i) && forall j: nat :: j < n && j != i ==> g(j) == f(j)
    ensures Total(n, g) < Total(n, f)
  {
    if i == n - 1 { TotalSame(n - 1, f, g); } else { TotalDrops(n - 1, f, g, i); }
  }

  function Waiting<T>(queues: seq<seq<T>>): nat {
    Total(|queues|, (i: nat) => if i < |queues| then |queues[i]| else 0)
  }

  lemma WaitingPopped<T>(queues: seq<seq<T>>, i: nat)
    requires i < |queues| && queues[i] != []
    ensures Waiting(Popped(queues, i)) < Waiting(queues)
  {
    var after := Popped(queues, i);
    TotalDrops(|queues|, (k: nat) => if k < |queues| then |queues[k]| else 0, (k: nat) => if k < |after| then |after[k]|
      else 0, i);
  }

  function Unread(w: World, routers: seq<RouterTask>, s: nat): nat {
    if s < |routers| && s < |w.sources| && routers[s].next <= |w.sources[s]| then |w.sources[s]| - routers[s].next
      else 0
  }

  function Unpromised(routers: seq<RouterTask>, s: nat): nat {
    if s < |routers| && routers[s].state.sent.Less(routers[s].state.last) then 1 else 0
  }

  function Unsent(routers: seq<RouterTask>, s: nat): nat {
    if s < |routers| then Waiting(routers[s].toAgg) + Waiting(routers[s].toJoin) else 0
  }

  function Uncommitted(w: World, committed: seq<nat>, s: nat): nat {
    if s < |committed| && s < |w.sources| && committed[s] != |w.sources[s]| then 1 else 0
  }

  function Left<T>(next: nat, log: seq<T>): nat { if next <= |log| then |log| - next else 0 }

  function AggUnread(aggs: seq<AggTask>, events: seq<seq<M.Msg>>, a: nat): nat {
    if a < |aggs| && a < |events| then Left(aggs[a].next, events[a]) else 0
  }

  function AggUnsent(aggs: seq<AggTask>, a: nat): nat { if a < |aggs| then Waiting(aggs[a].toJoin) else 0 }

  function JoinUnread(joins: seq<JoinTask>, parts: seq<seq<P.Msg>>, j: nat): nat {
    if j < |joins| && j < |parts| then Left(joins[j].next, parts[j]) else 0
  }

  function JoinUnsent(joins: seq<JoinTask>, j: nat): nat { if j < |joins| then |joins[j].out| else 0 }

  /** The work left, what makes more work before what it makes. */
  datatype Work = Work(unread: nat, unpromised: nat, unsent: nat, uncommitted: nat,
                       aggUnread: nat, aggUnsent: nat, joinUnread: nat, joinUnsent: nat) {
    predicate Less(b: Work) {
      if unread != b.unread then unread < b.unread
      else if unpromised != b.unpromised then unpromised < b.unpromised
      else if unsent != b.unsent then unsent < b.unsent
      else if uncommitted != b.uncommitted then uncommitted < b.uncommitted
      else if aggUnread != b.aggUnread then aggUnread < b.aggUnread
      else if aggUnsent != b.aggUnsent then aggUnsent < b.aggUnsent
      else if joinUnread != b.joinUnread then joinUnread < b.joinUnread
      else joinUnsent < b.joinUnsent
    }
  }

  function WorkLeft(w: World, y: System): Work {
    Work(Total(|w.sources|, (s: nat) => Unread(w, y.routers, s)),
         Total(|w.sources|, (s: nat) => Unpromised(y.routers, s)),
         Total(|w.sources|, (s: nat) => Unsent(y.routers, s)),
         Total(|w.sources|, (s: nat) => Uncommitted(w, y.committed, s)),
         Total(w.topo.entParts, (a: nat) => AggUnread(y.aggs, y.events, a)),
         Total(w.topo.entParts, (a: nat) => AggUnsent(y.aggs, a)),
         Total(w.topo.joinParts, (j: nat) => JoinUnread(y.joins, y.parts, j)),
         Total(w.topo.joinParts, (j: nat) => JoinUnsent(y.joins, j)))
  }

  // ---- every useful step leaves less -------------------------------------------------------

  lemma ReadLess(w: World, d: J.Decider, y: System, s: nat)
    requires Shaped(w, y) && Enabled(w, d, y, RouterHandles(s))
    ensures WorkLeft(w, Apply(w, d, y, RouterHandles(s))).Less(WorkLeft(w, y))
  {
    hide Total, R.Handle;
    var z := Apply(w, d, y, RouterHandles(s));
    TotalDrops(|w.sources|, (i: nat) => Unread(w, y.routers, i), (i: nat) => Unread(w, z.routers, i), s);
  }

  lemma PromiseLess(w: World, d: J.Decider, y: System, s: nat)
    requires Shaped(w, y) && Enabled(w, d, y, RouterPromises(s))
    requires y.routers[s].state.sent.Less(y.routers[s].state.last)
    ensures WorkLeft(w, Apply(w, d, y, RouterPromises(s))).Less(WorkLeft(w, y))
  {
    hide Total;
    var z := Apply(w, d, y, RouterPromises(s));
    TotalSame(|w.sources|, (i: nat) => Unread(w, y.routers, i), (i: nat) => Unread(w, z.routers, i));
    TotalDrops(|w.sources|, (i: nat) => Unpromised(y.routers, i), (i: nat) => Unpromised(z.routers, i), s);
  }

  lemma SendLess(w: World, d: J.Decider, y: System, x: Step)
    requires (x.RouterSendsEvent? || x.RouterSendsBase?) && Shaped(w, y) && Enabled(w, d, y, x)
    ensures WorkLeft(w, Apply(w, d, y, x)).Less(WorkLeft(w, y))
  {
    hide Total, Waiting, Popped, Appended;
    var z := Apply(w, d, y, x);
    var s := x.s;
    if x.RouterSendsEvent? { WaitingPopped(y.routers[s].toAgg, x.a); } else { WaitingPopped(y.routers[s].toJoin, x.j); }
    TotalSame(|w.sources|, (i: nat) => Unread(w, y.routers, i), (i: nat) => Unread(w, z.routers, i));
    TotalSame(|w.sources|, (i: nat) => Unpromised(y.routers, i), (i: nat) => Unpromised(z.routers, i));
    TotalDrops(|w.sources|, (i: nat) => Unsent(y.routers, i), (i: nat) => Unsent(z.routers, i), s);
  }

  lemma CommitLess(w: World, d: J.Decider, y: System, s: nat)
    requires Shaped(w, y) && Enabled(w, d, y, RouterCommits(s))
    requires y.routers[s].next == |w.sources[s]| && y.committed[s] != |w.sources[s]|
    ensures WorkLeft(w, Apply(w, d, y, RouterCommits(s))).Less(WorkLeft(w, y))
  {
    hide Total;
    var z := Apply(w, d, y, RouterCommits(s));
    TotalDrops(|w.sources|, (i: nat) => Uncommitted(w, y.committed, i), (i: nat) => Uncommitted(w, z.committed, i), s);
  }

  lemma AggHandleLess(w: World, d: J.Decider, y: System, a: nat)
    requires Shaped(w, y) && Enabled(w, d, y, AggHandles(a))
    ensures WorkLeft(w, Apply(w, d, y, AggHandles(a))).Less(WorkLeft(w, y))
  {
    hide Total, A.Handle;
    var z := Apply(w, d, y, AggHandles(a));
    TotalDrops(w.topo.entParts, (i: nat) => AggUnread(y.aggs, y.events, i), (i: nat) => AggUnread(z.aggs, z.events, i),
      a);
  }

  lemma AggSendLess(w: World, d: J.Decider, y: System, a: nat, j: nat)
    requires Shaped(w, y) && Enabled(w, d, y, AggSends(a, j))
    ensures WorkLeft(w, Apply(w, d, y, AggSends(a, j))).Less(WorkLeft(w, y))
  {
    hide Total, Waiting, Popped, Appended;
    var z := Apply(w, d, y, AggSends(a, j));
    WaitingPopped(y.aggs[a].toJoin, j);
    TotalSame(w.topo.entParts, (i: nat) => AggUnread(y.aggs, y.events, i), (i: nat) => AggUnread(z.aggs, z.events, i));
    TotalDrops(w.topo.entParts, (i: nat) => AggUnsent(y.aggs, i), (i: nat) => AggUnsent(z.aggs, i), a);
  }

  lemma JoinLess(w: World, d: J.Decider, y: System, x: Step)
    requires (x.JoinHandles? || x.JoinSends?) && Shaped(w, y) && Enabled(w, d, y, x)
    ensures WorkLeft(w, Apply(w, d, y, x)).Less(WorkLeft(w, y))
  {
    hide Total, J.Step;
    var z := Apply(w, d, y, x);
    var j := x.j;
    if x.JoinHandles? {
      TotalDrops(w.topo.joinParts, (i: nat) => JoinUnread(y.joins, y.parts, i),
        (i: nat) => JoinUnread(z.joins, z.parts, i), j);
    } else {
      TotalSame(w.topo.joinParts, (i: nat) => JoinUnread(y.joins, y.parts, i),
        (i: nat) => JoinUnread(z.joins, z.parts, i));
      TotalDrops(w.topo.joinParts, (i: nat) => JoinUnsent(y.joins, i), (i: nat) => JoinUnsent(z.joins, i), j);
    }
  }

  // ---- there is always a useful step -------------------------------------------------------

  ghost predicate Useful(w: World, d: J.Decider, y: System, x: Step) {
    Shaped(w, y) && Enabled(w, d, y, x) && WorkLeft(w, Apply(w, d, y, x)).Less(WorkLeft(w, y))
  }

  ghost predicate Ends(w: World) { forall s :: 0 <= s < |w.sources| ==> EndsWithHeartbeat(w, s) }

  lemma RouterUseful(w: World, d: J.Decider, y: System, s: nat) returns (x: Step)
    requires Sound(w) && Inv(w, d, y) && s < |w.sources| && y.committed[s] != |w.sources[s]|
    ensures Useful(w, d, y, x)
  {
    hide Sound, WorkLeft, AggOk, JoinOk, LogsOk, ToAggOk, Apply;
    var t := y.routers[s];
    assert RouterOk(w, s, t, y.events, y.parts);
    if a: nat :| a < w.topo.entParts && t.toAgg[a] != [] {
      x := RouterSendsEvent(s, a);
      SendLess(w, d, y, x);
    } else if j: nat :| j < w.topo.joinParts && t.toJoin[j] != [] {
      x := RouterSendsBase(s, j);
      SendLess(w, d, y, x);
    } else if t.next < |w.sources[s]| {
      x := RouterHandles(s);
      ReadLess(w, d, y, s);
    } else if t.state.sent.Less(t.state.last) {
      x := RouterPromises(s);
      PromiseLess(w, d, y, s);
    } else {
      x := RouterCommits(s);
      CommitLess(w, d, y, s);
    }
  }

  lemma TaskUseful(w: World, d: J.Decider, y: System) returns (x: Step)
    requires Sound(w) && Inv(w, d, y) && Ends(w) && !Drained(w, y)
    requires forall s: nat :: s < |w.sources| ==> y.committed[s] == |w.sources[s]|
    ensures Useful(w, d, y, x)
  {
    hide Sound, WorkLeft, AggOk, JoinOk, LogsOk, RouterOk, Apply, EndsWithHeartbeat, A.Handle, J.Step;
    if a: nat :| a < w.topo.entParts && y.aggs[a].next < |y.events[a]| {
      x := AggHandles(a);
      AggGoesOn(w, d, y, a);
      AggHandleLess(w, d, y, a);
    } else if a: nat, j: nat :| a < w.topo.entParts && j < w.topo.joinParts && y.aggs[a].toJoin[j] != [] {
      x := AggSends(a, j);
      AggSendLess(w, d, y, a, j);
    } else if j: nat :| j < w.topo.joinParts && y.joins[j].next < |y.parts[j]| {
      x := JoinHandles(j);
      JoinGoesOn(w, d, y, j);
      JoinLess(w, d, y, x);
    } else if j: nat :| j < w.topo.joinParts && y.joins[j].out != [] {
      x := JoinSends(j);
      JoinLess(w, d, y, x);
    } else {
      forall a: nat | a < w.topo.entParts
        ensures y.aggs[a].next <= |y.events[a]| { AggInLog(w, a, y.aggs[a], y.events[a], y.parts); }
      forall j: nat | j < w.topo.joinParts ensures y.joins[j].next <= |y.parts[j]| {
        JoinInLog(w, d, j, y.joins[j], y.parts[j], y.decisions[j]);
      }
    }
  }

  lemma AggInLog(w: World, a: nat, t: AggTask, log: seq<M.Msg>, parts: seq<seq<P.Msg>>)
    requires AggOk(w, a, t, log, parts)
    ensures t.next <= |log|
  {}

  lemma JoinInLog(w: World, d: J.Decider, j: nat, t: JoinTask, log: seq<P.Msg>, decided: seq<J.Decision>)
    requires JoinOk(w, d, j, t, log, decided)
    ensures t.next <= |log|
  {}

  lemma UsefulStep(w: World, d: J.Decider, y: System) returns (x: Step)
    requires Sound(w) && Inv(w, d, y) && Ends(w) && !Drained(w, y)
    ensures Useful(w, d, y, x)
  {
    hide Sound, Useful, Ends, LogsOk, RoutersOk, AggsOk, JoinsOk, Drained;
    if s: nat :| s < |w.sources| && y.committed[s] != |w.sources[s]| {
      x := RouterUseful(w, d, y, s);
    } else {
      x := TaskUseful(w, d, y);
    }
  }

  // ---- to the end --------------------------------------------------------------------------

  ghost predicate DrainsBy(w: World, d: J.Decider, y: System, steps: seq<Step>) {
    Legal(w, d, y, steps) && Shaped(w, End(w, d, y, steps)) && Drained(w, End(w, d, y, steps))
  }

  lemma {:induction false} CanDrain(w: World, d: J.Decider, y: System) returns (steps: seq<Step>)
    requires Sound(w) && Inv(w, d, y) && Ends(w)
    ensures DrainsBy(w, d, y, steps)
    decreases WorkLeft(w, y).unread, WorkLeft(w, y).unpromised, WorkLeft(w, y).unsent, WorkLeft(w, y).uncommitted,
              WorkLeft(w, y).aggUnread, WorkLeft(w, y).aggUnsent, WorkLeft(w, y).joinUnread, WorkLeft(w, y).joinUnsent
  {
    hide Sound, Ends, Drained, WorkLeft, Enabled, Apply, LogsOk, RoutersOk, AggsOk, JoinsOk;
    if Drained(w, y) {
      steps := [];
    } else {
      var x := UsefulStep(w, d, y);
      var z := Apply(w, d, y, x);
      StepInv(w, d, y, x);
      var rest := CanDrain(w, d, z);
      steps := [x] + rest;
      assert steps[1..] == rest;
    }
  }

  lemma {:induction false} RunsJoin(w: World, d: J.Decider, y: System, first: seq<Step>, more: seq<Step>)
    requires Legal(w, d, y, first) && Legal(w, d, End(w, d, y, first), more)
    ensures Legal(w, d, y, first + more) && End(w, d, y, first + more) == End(w, d, End(w, d, y, first), more)
    decreases |first|
  {
    hide Enabled, Apply, Shaped;
    if first == [] {
      assert first + more == more;
    } else {
      assert (first + more)[1..] == first[1..] + more;
      RunsJoin(w, d, Apply(w, d, y, first[0]), first[1..], more);
    }
  }

  lemma Placed(w: World)
    requires Sound(w)
    ensures forall id :: w.topo.joinPart(id) < w.topo.joinParts
  {}

  /** From any state a run reaches, whatever has crashed or is in flight, the run can go on to one where
  every payment has its decision and nothing waits. */
  lemma EveryPaymentCanBeDecided(w: World, d: J.Decider, y: System) returns (steps: seq<Step>)
    requires Sound(w) && Reachable(w, d, y) && Ends(w)
    ensures Legal(w, d, y, steps)
    ensures var z := End(w, d, y, steps);
            && Reachable(w, d, z) && Shaped(w, z) && Drained(w, z)
            && (forall j :: 0 <= j < w.topo.joinParts ==> z.joins[j].state.pending == map[])
            && (forall s: nat, i: nat :: PaymentAt(w, s, i) ==>
                  Announced(w.sources[s][i].pid, z.decisions[w.topo.joinPart(w.sources[s][i].pid)]))
  {
    Placed(w);
    hide Sound, Inv, Drained, Ends, Enabled, Apply, Legal, End, Announced;
    ReachableInv(w, d, y);
    steps := CanDrain(w, d, y);
    var z := End(w, d, y, steps);
    var first :| Legal(w, d, Start(w), first) && y == End(w, d, Start(w), first);
    RunsJoin(w, d, Start(w), first, steps);
    assert Reachable(w, d, z);
    hide Reachable;
    forall s: nat, i: nat | PaymentAt(w, s, i)
      ensures Announced(w.sources[s][i].pid, z.decisions[w.topo.joinPart(w.sources[s][i].pid)])
    {
      NothingLeftPending(w, d, z, s, i);
    }
    NothingLeftPending(w, d, z, 0, 0);
  }
}
