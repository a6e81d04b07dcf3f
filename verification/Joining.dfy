/** The joiner of one parts partition (internal/stream/join.go): what one record does to its state,
and what it has decided after any log that keeps the delivery contract. */
module Joining {
  import opened Numbers
  import opened Domain
  import opened Feed
  import opened Rows
  import opened Engine
  import opened Replay
  import opened Parts

  datatype Verdict = Verdict(action: string, rule: string, shadow: seq<string>)

  /** What turns a feature row into a verdict: the model, if there is one, and the rules. */
  datatype Decider = Decider(cat: Catalog, score: Option<Row -> Num>, rules: Row -> Verdict)

  /** A decision without its wall-clock fields. */
  datatype Decision = Decision(pid: string, row: Row, verdict: Verdict)

  /** Puts the model's score, if there is a model, into the row and asks the rules about it. */
  function DecideOn(d: Decider, pid: string, row: Row): Decision {
    var scored := if d.score.None? then row else
      Row(seq(|row.num|, i requires 0 <= i < |row.num| =>
            if i < |d.cat.num| && d.cat.num[i] == RiskScore then d.score.value(row) else row.num[i]), row.str);
    Decision(pid, scored, d.rules(scored))
  }

  /** The decision is the rules' about the row it logs, and that row is the one given with the model's score, if there
  is a model, where the catalog has its place. */
  ghost predicate MadeOn(d: Decider, row: Row, x: Decision) {
    && x.verdict == d.rules(x.row) && x.row.str == row.str && |x.row.num| == |row.num|
    && forall i :: 0 <= i < |row.num| ==>
         x.row.num[i] == if d.score.Some? && i < |d.cat.num| && d.cat.num[i] == RiskScore then d.score.value(row)
                         else row.num[i]
  }

  lemma DecideOnMakes(d: Decider, pid: string, row: Row)
    ensures MadeOn(d, row, DecideOn(d, pid, row)) && DecideOn(d, pid, row).pid == pid
  {}

  lemma MadeOnce(d: Decider, row: Row, x: Decision, y: Decision)
    requires MadeOn(d, row, x) && MadeOn(d, row, y) && x.pid == y.pid
    ensures x == y
  {
    assert x.row.num == y.row.num;
  }

  /** What has come so far of a payment. */
  datatype Pending = Pending(base: Option<Msg>, values: map<Entity, seq<Num>>) {
    predicate Complete() { base.Some? && base.value.Base? && values.Keys == base.value.mask }
  }

  /** How far each sender's records have been received. */
  datatype Marks = Marks(
    lastSrc: map<nat, nat>, // of each payments partition, how far its base parts have come
    lastAgg: map<nat, nat>) // per aggregator, the highest part number

  datatype State = State(pending: map<string, Pending>, marks: Marks, decided: nat, dups: nat)

  const FRESH := State(map[], Marks(map[], map[]), 0, 0)

  datatype Effect = Effect(state: State, decision: Option<Decision>)

  function Waiting(s: State, pid: string): Pending {
    if pid in s.pending then s.pending[pid] else Pending(None, map[])
  }

  function With(p: Pending, m: Msg): Pending {
    if m.Base? then p.(base := Some(m)) else p.(values := p.values[m.entity := m.values])
  }

  function Assembled(p: Pending): seq<seq<Num>>
    requires p.Complete()
  {
    seq(NUM_ENTITIES, e requires 0 <= e < NUM_ENTITIES => if e in p.base.value.mask then p.values[e] else Missing(e))
  }

  function Decide(d: Decider, p: Pending): Decision
    requires p.Complete()
  {
    DecideOn(d, p.base.value.pid, RowOf(d.cat, p.base.value.txn, Assembled(p)))
  }

  predicate Repeats(k: Marks, m: Msg) {
    if m.Base? then m.src in k.lastSrc && m.offset <= k.lastSrc[m.src]
    else m.agg in k.lastAgg && m.num <= k.lastAgg[m.agg]
  }

  function Marked(k: Marks, m: Msg): Marks {
    if m.Base? then k.(lastSrc := k.lastSrc[m.src := m.offset]) else k.(lastAgg := k.lastAgg[m.agg := m.num])
  }

  /** What receiving a new record leaves: its payment decided or still waiting. */
  function Received(d: Decider, s: State, m: Msg): Effect {
    var p, k := With(Waiting(s, m.pid), m), Marked(s.marks, m);
    if p.Complete() then Effect(State(s.pending - {m.pid}, k, s.decided + 1, s.dups), Some(Decide(d, p)))
    else Effect(State(s.pending[m.pid := p], k, s.decided, s.dups), None)
  }

  /** One record of the partition; None is the error for a part of the wrong width. */
  function Step(d: Decider, s: State, m: Msg): Option<Effect> {
    if m.Part? && |m.values| != Width(m.entity) then None
    else if Repeats(s.marks, m) then Some(Effect(s.(dups := s.dups + 1), None))
    else Some(Received(d, s, m))
  }

  // ---- the delivery contract ---------------------------------------------

  ghost predicate RoutedBase(w: World, j: nat, m: Msg) {
    && m.Base? && PaymentAt(w, m.src, m.offset) && w.sources[m.src][m.offset] == Payment(m.pid, m.txn)
    && m.mask == MaskOf(m.txn) && w.topo.joinPart(m.pid) == j
  }

  ghost predicate RoutedPart(w: World, j: nat, m: Msg) {
    && m.Part? && m.agg < w.topo.entParts && m.num < |Merged(w, m.agg)|
    && m == PartAt(m.agg, Merged(w, m.agg), m.num) && w.topo.joinPart(m.pid) == j
  }

  ghost predicate Routed(w: World, j: nat, m: Msg) { RoutedBase(w, j, m) || RoutedPart(w, j, m) }

  /** a was sent by the sender of b, earlier in its output. */
  predicate SentBefore(a: Msg, b: Msg) {
    if a.Base? then b.Base? && a.src == b.src && a.offset < b.offset
    else b.Part? && a.agg == b.agg && a.num < b.num
  }

  /** Each sender's records arrive in order, starting again after a restart at or before the point
  it was cut off. */
  ghost predicate Delivers(w: World, j: nat, seen: set<Msg>, m: Msg) {
    Routed(w, j, m) && forall l :: Routed(w, j, l) && SentBefore(l, m) ==> l in seen
  }

  lemma BaseIsUnique(w: World, j: nat, a: Msg, b: Msg)
    requires Sound(w) && RoutedBase(w, j, a) && RoutedBase(w, j, b) && a.pid == b.pid
    ensures a == b
  {
    hide MaskOf;
    assert SamePayment(w.sources[a.src][a.offset], w.sources[b.src][b.offset]);
  }

  lemma PartComesFrom(w: World, j: nat, p: Msg)
    requires RoutedPart(w, j, p)
    ensures var e := Merged(w, p.agg)[p.num];
            Feed.Routed(w, p.agg, e) && e.pid == p.pid && e.entity == p.entity
  {
    MergedIsSorted(w, p.agg);
    hide Merged, PartOf, KeyOf;
    assert Merged(w, p.agg)[p.num] in Merged(w, p.agg);
  }

  lemma PartIsUnique(w: World, j: nat, a: Msg, b: Msg)
    requires Sound(w) && RoutedPart(w, j, a) && RoutedPart(w, j, b) && a.pid == b.pid && a.entity == b.entity
    ensures a == b
  {
    PartComesFrom(w, j, a);
    PartComesFrom(w, j, b);
    var d, e := Merged(w, a.agg)[a.num], Merged(w, b.agg)[b.num];
    assert SamePayment(w.sources[d.src][d.offset], w.sources[e.src][e.offset]);
    MergedIsSorted(w, a.agg);
    hide KeyOf, Merged, PartOf, InOrder, EventTrail;
    assert d == e && a.agg == b.agg;
    if a.num < b.num { InOrderAt(Merged(w, a.agg), a.num, b.num); }
    if b.num < a.num { InOrderAt(Merged(w, a.agg), b.num, a.num); }
  }

  lemma PartIsAwaited(w: World, j: nat, p: Msg, b: Msg)
    requires Sound(w) && RoutedPart(w, j, p) && RoutedBase(w, j, b) && p.pid == b.pid
    ensures p.entity in b.mask && Merged(w, p.agg)[p.num].txn == b.txn
  {
    PartComesFrom(w, j, p);
    var e := Merged(w, p.agg)[p.num];
    hide KeyOf, Merged, PartOf;
    assert SamePayment(w.sources[e.src][e.offset], w.sources[b.src][b.offset]);
  }

  // ---- the invariant ------------------------------------------------------

  /** The marks recognise exactly the records received before. */
  ghost predicate Reached(w: World, j: nat, k: Marks, seen: set<Msg>) {
    && (forall m :: m in seen ==> Routed(w, j, m))
    && (forall m :: Routed(w, j, m) ==> (m in seen <==> Repeats(k, m)))
  }

  ghost predicate Has(seen: set<Msg>, pid: string, e: Entity) {
    exists m :: m in seen && m.Part? && m.pid == pid && m.entity == e
  }

  /** Everything about a payment has been received. */
  ghost predicate Done(seen: set<Msg>, b: Msg) {
    b in seen && b.Base? && forall e :: e in b.mask ==> Has(seen, b.pid, e)
  }

  ghost predicate Finished(seen: set<Msg>, pid: string) {
    exists b :: Done(seen, b) && b.pid == pid
  }

  ghost predicate HoldsOf(p: Pending, seen: set<Msg>, pid: string, m: Msg) {
    m in seen && m.pid == pid ==> if m.Base? then p.base == Some(m)
      else m.entity in p.values && p.values[m.entity] == m.values
  }

  /** A pending payment holds exactly what was received for it. */
  ghost predicate Holds(p: Pending, seen: set<Msg>, pid: string) {
    && (p.base.Some? ==> p.base.value in seen && p.base.value.Base? && p.base.value.pid == pid)
    && (forall m :: HoldsOf(p, seen, pid, m))
    && (forall e :: e in p.values ==> Has(seen, pid, e))
  }

  /** Each payment something was received for is pending or decided, never both. */
  ghost predicate Sorted(s: State, seen: set<Msg>, done: set<string>) {
    && (forall pid :: pid in s.pending ==>
          Holds(s.pending[pid], seen, pid) && !s.pending[pid].Complete() && pid !in done)
    && (forall pid :: pid in s.pending ==> s.pending[pid] != Pending(None, map[]))
    && (forall m :: m in seen ==> m.pid in s.pending || m.pid in done)
    && (forall pid :: pid in done ==> Finished(seen, pid))
    && s.decided == |done|
  }

  ghost predicate Inv(w: World, j: nat, s: State, seen: set<Msg>, done: set<string>) {
    Reached(w, j, s.marks, seen) && Sorted(s, seen, done)
  }

  lemma FreshInv(w: World, j: nat)
    ensures Inv(w, j, FRESH, {}, {})
  {}

  lemma SenderIsOrdered(w: World, j: nat, a: Msg, b: Msg)
    requires Routed(w, j, a) && Routed(w, j, b)
    requires if a.Base? then b.Base? && a.src == b.src && a.offset == b.offset
             else b.Part? && a.agg == b.agg && a.num == b.num
    ensures a == b
  {
    hide Merged, MaskOf, PartAt;
  }

  lemma MarkedReached(w: World, j: nat, k: Marks, seen: set<Msg>, m: Msg)
    requires Reached(w, j, k, seen) && Delivers(w, j, seen, m) && !Repeats(k, m)
    ensures Reached(w, j, Marked(k, m), seen + {m}) && m !in seen
  {
    forall l | Routed(w, j, l) ensures l in seen + {m} <==> Repeats(Marked(k, m), l) {
      if !SentBefore(l, m) && !SentBefore(m, l)
        && l.Base? == m.Base? && (if l.Base? then l.src == m.src else l.agg == m.agg) {
        SenderIsOrdered(w, j, l, m);
      }
    }
  }

  /** A finished payment has nothing more to come. */
  lemma NothingMore(w: World, j: nat, seen: set<Msg>, m: Msg)
    requires Sound(w) && Routed(w, j, m) && m !in seen && forall l :: l in seen ==> Routed(w, j, l)
    ensures !Finished(seen, m.pid)
  {
    hide RoutedBase, RoutedPart, Sound;
    RoutedAs(w, j, m);
    if Finished(seen, m.pid) {
      var b :| Done(seen, b) && b.pid == m.pid;
      assert RoutedBase(w, j, b) by { RoutedAs(w, j, b); }
      if m.Base? {
        BaseIsUnique(w, j, b, m);
      } else {
        PartIsAwaited(w, j, m, b);
        var p :| p in seen && p.Part? && p.pid == m.pid && p.entity == m.entity;
        assert RoutedPart(w, j, p) by { RoutedAs(w, j, p); }
        PartIsUnique(w, j, p, m);
      }
    }
  }

  lemma RoutedAs(w: World, j: nat, m: Msg)
    requires Routed(w, j, m)
    ensures if m.Base? then RoutedBase(w, j, m) else RoutedPart(w, j, m)
  {}

  lemma MoreHas(seen: set<Msg>, m: Msg, pid: string, e: Entity)
    ensures Has(seen, pid, e) ==> Has(seen + {m}, pid, e)
    ensures m.Part? ==> Has(seen + {m}, m.pid, m.entity)
  {
    if Has(seen, pid, e) {
      var p :| p in seen && p.Part? && p.pid == pid && p.entity == e;
      assert p in seen + {m};
    }
    assert m in seen + {m};
  }

  lemma MoreFinished(seen: set<Msg>, m: Msg, pid: string)
    requires Finished(seen, pid)
    ensures Finished(seen + {m}, pid)
  {
    var b :| Done(seen, b) && b.pid == pid;
    forall e | e in b.mask ensures Has(seen + {m}, b.pid, e) { MoreHas(seen, m, b.pid, e); }
    assert Done(seen + {m}, b);
  }

  lemma OthersHold(p: Pending, seen: set<Msg>, m: Msg, pid: string)
    requires Holds(p, seen, pid) && m.pid != pid
    ensures Holds(p, seen + {m}, pid)
  {
    forall l ensures HoldsOf(p, seen + {m}, pid, l) { assert HoldsOf(p, seen, pid, l); }
    forall e | e in p.values ensures Has(seen + {m}, pid, e) { MoreHas(seen, m, pid, e); }
  }

  lemma WithHolds(w: World, j: nat, p: Pending, seen: set<Msg>, m: Msg)
    requires Sound(w) && Holds(p, seen, m.pid) && Routed(w, j, m) && m !in seen
    requires forall l :: l in seen ==> Routed(w, j, l)
    ensures Holds(With(p, m), seen + {m}, m.pid)
  {
    hide RoutedBase, RoutedPart, Sound;
    forall l ensures HoldsOf(With(p, m), seen + {m}, m.pid, l) {
      if l in seen && l.pid == m.pid {
        assert HoldsOf(p, seen, m.pid, l);
        RoutedAs(w, j, l);
        RoutedAs(w, j, m);
        if l.Base? && m.Base? { BaseIsUnique(w, j, l, m); }
        if l.Part? && m.Part? && l.entity == m.entity { PartIsUnique(w, j, l, m); }
      }
    }
    forall e | e in With(p, m).values ensures Has(seen + {m}, m.pid, e) { MoreHas(seen, m, m.pid, e); }
  }

  lemma CompleteIsFinished(p: Pending, seen: set<Msg>, pid: string)
    requires Holds(p, seen, pid) && p.Complete()
    ensures Finished(seen, pid)
  {
    assert Done(seen, p.base.value);
  }

  /** A payment something new arrived for was not decided, and now holds everything received. */
  lemma NewHolds(w: World, j: nat, s: State, seen: set<Msg>, done: set<string>, m: Msg)
    requires Sound(w) && Inv(w, j, s, seen, done) && Routed(w, j, m) && m !in seen
    ensures m.pid !in done && Holds(With(Waiting(s, m.pid), m), seen + {m}, m.pid)
  {
    hide Sound, Routed, Holds, Finished;
    NothingMore(w, j, seen, m);
    if m.pid !in s.pending { NothingHolds(seen, m.pid, s, done); }
    WithHolds(w, j, Waiting(s, m.pid), seen, m);
  }

  lemma OthersSorted(s: State, seen: set<Msg>, done: set<string>, m: Msg)
    requires Sorted(s, seen, done)
    ensures forall q :: q in s.pending && q != m.pid ==> Holds(s.pending[q], seen + {m}, q)
    ensures forall q :: q in done ==> Finished(seen + {m}, q)
  {
    hide Holds, Finished;
    forall q | q in s.pending && q != m.pid ensures Holds(s.pending[q], seen + {m}, q) {
      OthersHold(s.pending[q], seen, m, q);
    }
    forall q | q in done ensures Finished(seen + {m}, q) { MoreFinished(seen, m, q); }
  }

  lemma DecidedSorted(s: State, seen: set<Msg>, done: set<string>, m: Msg, k: Marks)
    requires Sorted(s, seen, done) && m.pid !in done && Finished(seen + {m}, m.pid)
    ensures Sorted(State(s.pending - {m.pid}, k, s.decided + 1, s.dups), seen + {m}, done + {m.pid})
  {
    OthersSorted(s, seen, done, m);
    hide Holds, Finished;
  }

  lemma WaitingSorted(s: State, seen: set<Msg>, done: set<string>, m: Msg, k: Marks, p: Pending)
    requires Sorted(s, seen, done) && m.pid !in done && Holds(p, seen + {m}, m.pid) && !p.Complete()
    requires p != Pending(None, map[])
    ensures Sorted(State(s.pending[m.pid := p], k, s.decided, s.dups), seen + {m}, done)
  {
    OthersSorted(s, seen, done, m);
    hide Holds, Finished;
  }

  lemma NewSorted(w: World, j: nat, d: Decider, s: State, seen: set<Msg>, done: set<string>, m: Msg)
    requires Sound(w) && Inv(w, j, s, seen, done) && Routed(w, j, m) && m !in seen
    ensures var x := Received(d, s, m);
            Sorted(x.state, seen + {m}, if x.decision.Some? then done + {m.pid} else done)
  {
    hide Sound, Routed, Holds, Finished, Decide, Sorted, Reached;
    NewHolds(w, j, s, seen, done, m);
    var p := With(Waiting(s, m.pid), m);
    if p.Complete() {
      CompleteIsFinished(p, seen + {m}, m.pid);
      DecidedSorted(s, seen, done, m, Marked(s.marks, m));
    } else {
      assert m.Part? ==> m.entity in p.values;
      WaitingSorted(s, seen, done, m, Marked(s.marks, m), p);
    }
  }

  lemma NothingHolds(seen: set<Msg>, pid: string, s: State, done: set<string>)
    requires Sorted(s, seen, done) && pid !in s.pending && !Finished(seen, pid)
    ensures Holds(Pending(None, map[]), seen, pid)
  {
    assert pid !in done;
    forall m ensures HoldsOf(Pending(None, map[]), seen, pid, m) {}
  }

  lemma PartWidthFits(w: World, j: nat, m: Msg)
    requires RoutedPart(w, j, m)
    ensures |m.values| == Width(m.entity)
  {
    hide Merged, KeyOf, EventTrail;
  }

  /** Every record that keeps the contract keeps the invariant, and a payment is decided when, and
  only when, the last record about it arrives for the first time. */
  lemma StepInv(w: World, j: nat, d: Decider, s: State, seen: set<Msg>, done: set<string>, m: Msg)
    requires Sound(w) && Inv(w, j, s, seen, done) && Delivers(w, j, seen, m)
    ensures Step(d, s, m).Some?
    ensures var x := Step(d, s, m).value;
            && Inv(w, j, x.state, seen + {m}, if x.decision.Some? then done + {m.pid} else done)
            && (x.decision.Some? ==> m.pid !in done)
  {
    hide Routed, RoutedBase, RoutedPart, Sound, Sorted, Holds, Decide, Reached, Delivers;
    DeliversRouted(w, j, seen, m);
    RoutedAs(w, j, m);
    if m.Part? { PartWidthFits(w, j, m); }
    if Repeats(s.marks, m) {
      RepeatsSeen(w, j, s.marks, seen, m);
      assert seen + {m} == seen;
      StillSorted(s, seen, done);
    } else {
      MarkedReached(w, j, s.marks, seen, m);
      NewSorted(w, j, d, s, seen, done, m);
      NewHolds(w, j, s, seen, done, m);
    }
  }

  lemma DecisionNamesPayment(w: World, j: nat, d: Decider, s: State, seen: set<Msg>, done: set<string>, m: Msg)
    requires Sound(w) && Inv(w, j, s, seen, done) && Delivers(w, j, seen, m)
    requires Step(d, s, m).Some? && Step(d, s, m).value.decision.Some?
    ensures Step(d, s, m).value.decision.value.pid == m.pid
  {
    MarkedReached(w, j, s.marks, seen, m);
    NewHolds(w, j, s, seen, done, m);
    hide Sound, Inv, Delivers, Assembled, RowOf;
  }

  lemma DeliversRouted(w: World, j: nat, seen: set<Msg>, m: Msg)
    requires Delivers(w, j, seen, m)
    ensures Routed(w, j, m)
  {}

  lemma RepeatsSeen(w: World, j: nat, k: Marks, seen: set<Msg>, m: Msg)
    requires Reached(w, j, k, seen) && Routed(w, j, m)
    ensures Repeats(k, m) <==> m in seen
  {}

  lemma StillSorted(s: State, seen: set<Msg>, done: set<string>)
    requires Sorted(s, seen, done)
    ensures Sorted(s.(dups := s.dups + 1), seen, done)
  {}

  // ---- what is decided ------------------------------------------------------

  /** A complete payment's row is the row replay writes for it. */
  lemma AssembledIsReplays(w: World, j: nat, p: Pending, seen: set<Msg>, txns: seq<Txn>, i: nat)
    requires Sound(w) && IsHistory(w, txns) && i < |txns| && p.Complete() && p.base.value.txn == txns[i]
    requires Holds(p, seen, p.base.value.pid) && forall m :: m in seen ==> Routed(w, j, m)
    ensures Assembled(p) == PartsOf(TrailsOf(txns, i), txns[i])
  {
    var b := p.base.value;
    RoutedAs(w, j, b);
    forall e: Entity ensures Assembled(p)[e] == PartsOf(TrailsOf(txns, i), txns[i])[e] {
      MaskedAssembled(w, j, p, seen, txns, i, e);
    }
  }

  lemma MaskedAssembled(w: World, j: nat, p: Pending, seen: set<Msg>, txns: seq<Txn>, i: nat, e: Entity)
    requires Sound(w) && IsHistory(w, txns) && i < |txns| && p.Complete() && p.base.value.txn == txns[i]
    requires Holds(p, seen, p.base.value.pid) && forall m :: m in seen ==> Routed(w, j, m)
    requires RoutedBase(w, j, p.base.value)
    ensures Assembled(p)[e] == PartsOf(TrailsOf(txns, i), txns[i])[e]
  {
    hide Sound, IsHistory, PartOf, KeyOf, Routed, RoutedPart, PartAt;
    var b := p.base.value;
    if e in b.mask {
      var m :| m in seen && m.Part? && m.pid == b.pid && m.entity == e;
      assert HoldsOf(p, seen, b.pid, m);
      RoutedAs(w, j, m);
      PartIsAwaited(w, j, m, b);
      PartIsRoutedAt(w, j, m);
      PartIsReplays(w, m.agg, m.num, txns, i);
    }
  }

  lemma PartIsRoutedAt(w: World, j: nat, m: Msg)
    requires RoutedPart(w, j, m)
    ensures m.num < |Merged(w, m.agg)| && m == PartAt(m.agg, Merged(w, m.agg), m.num)
  {}

  /** Every decision, first or sent again, is the one replay's row leads to. */
  lemma DecisionIsReplays(w: World, j: nat, d: Decider, s: State, seen: set<Msg>, done: set<string>, m: Msg,
      txns: seq<Txn>)
    requires Sound(w) && Inv(w, j, s, seen, done) && Delivers(w, j, seen, m) && IsHistory(w, txns)
    requires Step(d, s, m).Some? && Step(d, s, m).value.decision.Some?
    ensures IsReplays(w, d, txns, Step(d, s, m).value.decision.value)
  {
    var p := With(Waiting(s, m.pid), m);
    MarkedReached(w, j, s.marks, seen, m);
    NewHolds(w, j, s, seen, done, m);
    hide IsHistory, Sorted, Decide, DecideOn, RowOf, Sound;
    assert p.base.value in seen + {m} && p.base.value.pid == m.pid;
    hide Holds;
    BaseIsHistorys(w, j, p, seen + {m}, txns);
    DecideIsReplays(w, j, d, p, seen + {m}, txns);
  }

  lemma BaseIsHistorys(w: World, j: nat, p: Pending, seen: set<Msg>, txns: seq<Txn>)
    requires IsHistory(w, txns) && p.Complete() && p.base.value in seen && forall m :: m in seen ==> Routed(w, j, m)
    ensures RoutedBase(w, j, p.base.value) && p.base.value.txn in txns
  {
    hide MaskOf, Increasing;
    RoutedAs(w, j, p.base.value);
  }

  lemma DecideIsReplays(w: World, j: nat, d: Decider, p: Pending, seen: set<Msg>, txns: seq<Txn>)
    requires Sound(w) && IsHistory(w, txns) && p.Complete() && RoutedBase(w, j, p.base.value)
    requires p.base.value.txn in txns
    requires Holds(p, seen, p.base.value.pid) && forall m :: m in seen ==> Routed(w, j, m)
    ensures IsReplays(w, d, txns, Decide(d, p))
  {
    var b := p.base.value;
    var i: nat :| i < |txns| && txns[i] == b.txn;
    AssembledIsReplays(w, j, p, seen, txns, i);
    hide Sound, IsHistory, Holds, Routed, Assembled, RowOf, DecideOn, MadeOn, PartsOf;
    DecideOnMakes(d, b.pid, ReplayRow(d.cat, txns, i));
    assert PaymentAt(w, b.src, b.offset) && w.sources[b.src][b.offset] == Payment(b.pid, txns[i]);
    assert Decide(d, p) == DecideOn(d, b.pid, ReplayRow(d.cat, txns, i));
  }

  /** The decision is for a payment of the stream, on the row replay writes for it. */
  ghost predicate IsReplays(w: World, d: Decider, txns: seq<Txn>, x: Decision) {
    exists i: nat, s: nat, o: nat ::
      && i < |txns| && PaymentAt(w, s, o) && w.sources[s][o] == Payment(x.pid, txns[i])
      && MadeOn(d, ReplayRow(d.cat, txns, i), x)
  }
}
