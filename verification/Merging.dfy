/** The watermark merger of an aggregator partition (internal/stream/merge.go): what one record does
to its state, and what it has released after any log that keeps the delivery contract. */
module Merging {
  import opened Domain
  import opened Feed

  datatype Msg = Ev(event: EntityEvent) | Wm(src: nat, pos: Pos)

  datatype State = State(
    wm: seq<Pos>,          // the sources' watermarks
    recv: seq<Mark>,       // per source: the highest mark received
    buf: seq<EntityEvent>, // received, not yet released, in release order
    last: ReleaseKey,      // the last event released
    late: nat, dups: nat)

  function Fresh(sources: nat): State {
    State(seq(sources, i => MIN_POS), seq(sources, i => Mark(-1, 0)), [], ReleaseKey(MIN_POS, 0, -1, -1), 0, 0)
  }

  function LowFrom(wm: seq<Pos>, low: Pos): Pos {
    if wm == [] then low else LowFrom(wm[1..], if wm[0].Less(low) then wm[0] else low)
  }

  /** The minimum watermark. */
  function Low(wm: seq<Pos>): Pos { LowFrom(wm, MAX_POS) }

  lemma {:induction false} LowIsLeast(wm: seq<Pos>, low: Pos)
    ensures LowFrom(wm, low).AtMost(low)
    ensures forall i :: 0 <= i < |wm| ==> LowFrom(wm, low).AtMost(wm[i])
    ensures LowFrom(wm, low) == low || LowFrom(wm, low) in wm
    decreases |wm|
  {
    if wm != [] {
      LowIsLeast(wm[1..], if wm[0].Less(low) then wm[0] else low);
    }
  }

  // ---- one record -------------------------------------------------------

  function Due(buf: seq<EntityEvent>, low: Pos): seq<EntityEvent> {
    if buf == [] || low.Less(buf[0].At()) then [] else [buf[0]] + Due(buf[1..], low)
  }

  function NotDue(buf: seq<EntityEvent>, low: Pos): seq<EntityEvent> {
    if buf == [] || low.Less(buf[0].At()) then buf else NotDue(buf[1..], low)
  }

  /** A record's effect: the new state and the events to apply, in order. */
  datatype Effect = Effect(state: State, events: seq<EntityEvent>)

  function Release(m: State): Effect {
    var due := Due(m.buf, Low(m.wm));
    Effect(m.(buf := NotDue(m.buf, Low(m.wm)),
              last := if due == [] then m.last else ReleaseKeyOf(due[|due| - 1])), due)
  }

  /** An event is dropped as a duplicate, applied at once because it is late, or buffered. */
  function Add(m: State, e: EntityEvent): Effect
    requires e.src < |m.wm| && |m.wm| == |m.recv|
  {
    if !e.MarkOf().After(m.recv[e.src]) then Effect(m.(dups := m.dups + 1), [])
    else
      var n := m.(recv := m.recv[e.src := e.MarkOf()]);
      if !m.last.Less(ReleaseKeyOf(e)) || !Low(m.wm).Less(e.At()) then Effect(n.(late := m.late + 1), [e])
      else Effect(n.(buf := Insert(m.buf, e)), [])
  }

  function Advance(m: State, src: nat, pos: Pos): State
    requires src < |m.wm|
  {
    if m.wm[src].Less(pos) then m.(wm := m.wm[src := pos]) else m
  }

  /** One record of the partition; None is the error for a source the merger does not track. */
  function Step(m: State, msg: Msg): Option<Effect>
    requires |m.wm| == |m.recv|
  {
    var src := if msg.Ev? then msg.event.src else msg.src;
    if src >= |m.wm| then None
    else if msg.Wm? then Some(Release(Advance(m, src, msg.pos)))
    else
      var added := Add(m, msg.event);
      var released := Release(added.state);
      Some(Effect(released.state, added.events + released.events))
  }

  lemma {:induction false} DueThenNotDue(buf: seq<EntityEvent>, low: Pos)
    ensures buf == Due(buf, low) + NotDue(buf, low)
    decreases |buf|
  {
    hide Before;
    if buf != [] && !low.Less(buf[0].At()) { DueThenNotDue(buf[1..], low); }
  }

  lemma {:induction false} DueIsDue(buf: seq<EntityEvent>, low: Pos, e: EntityEvent)
    ensures e in Due(buf, low) ==> e.At().AtMost(low)
    decreases |buf|
  {
    if buf != [] && !low.Less(buf[0].At()) { DueIsDue(buf[1..], low, e); }
  }

  lemma {:induction false} NotDueIsLater(buf: seq<EntityEvent>, low: Pos, e: EntityEvent)
    requires InOrder(buf)
    ensures e in NotDue(buf, low) ==> low.Less(e.At())
    decreases |buf|
  {
    if buf != [] {
      if !low.Less(buf[0].At()) {
        NotDueIsLater(buf[1..], low, e);
      } else if e in buf[1..] {
        HeadIsLeast(buf, e);
      }
    }
  }

  lemma {:induction false} DueInOrder(buf: seq<EntityEvent>, low: Pos)
    requires InOrder(buf)
    ensures InOrder(Due(buf, low)) && (Due(buf, low) != [] ==> Due(buf, low)[0] == buf[0])
    decreases |buf|
  {
    hide Before, Pos.Less;
    if buf != [] && !low.Less(buf[0].At()) {
      DueInOrder(buf[1..], low);
      assert Due(buf, low)[1..] == Due(buf[1..], low);
    }
  }

  lemma {:induction false} NotDueInOrder(buf: seq<EntityEvent>, low: Pos)
    requires InOrder(buf)
    ensures InOrder(NotDue(buf, low))
    decreases |buf|
  {
    hide Before, Pos.Less;
    if buf != [] && !low.Less(buf[0].At()) { NotDueInOrder(buf[1..], low); }
  }

  /** The minimum watermark cuts the ordered buffer in two: what is due, and what has to wait. */
  lemma DueAndNotDue(buf: seq<EntityEvent>, low: Pos)
    requires InOrder(buf)
    ensures buf == Due(buf, low) + NotDue(buf, low)
    ensures InOrder(Due(buf, low)) && InOrder(NotDue(buf, low))
    ensures forall e :: e in Due(buf, low) ==> e.At().AtMost(low)
    ensures forall e :: e in NotDue(buf, low) ==> low.Less(e.At())
  {
    hide InOrder, Due, NotDue, Pos.Less, Pos.AtMost;
    DueThenNotDue(buf, low);
    DueInOrder(buf, low);
    NotDueInOrder(buf, low);
    forall e ensures e in Due(buf, low) ==> e.At().AtMost(low) { DueIsDue(buf, low, e); }
    forall e ensures e in NotDue(buf, low) ==> low.Less(e.At()) { NotDueIsLater(buf, low, e); }
  }

  // ---- the delivery contract ---------------------------------------------

  /** The events among a log's first n records. */
  function Seen(log: seq<Msg>, n: nat): set<EntityEvent>
    requires n <= |log|
  {
    if n == 0 then {} else Seen(log, n - 1) + Events(log[n - 1])
  }

  function Events(msg: Msg): set<EntityEvent> { if msg.Ev? then {msg.event} else {} }

  /** A source sends its events in mark order, starting again after a restart at or before the point
  it was cut off, and a watermark after the events it covers. */
  ghost predicate Delivers(w: World, a: nat, seen: set<EntityEvent>, msg: Msg) {
    match msg
    case Ev(e) => Routed(w, a, e) && forall d :: Routed(w, a, d) && d.src == e.src && e.MarkOf().After(d.MarkOf()) ==>
      d in seen
    case Wm(s, p) => s < |w.sources| && forall d :: Routed(w, a, d) && d.src == s && d.At().AtMost(p) ==> d in seen
  }

  ghost predicate Obeys(w: World, a: nat, log: seq<Msg>) {
    forall i :: 0 <= i < |log| ==> Delivers(w, a, Seen(log, i), log[i])
  }

  lemma {:induction false} SeenSnoc(log: seq<Msg>, msg: Msg, n: nat)
    requires n <= |log|
    ensures Seen(log + [msg], n) == Seen(log, n)
    decreases n
  {
    if n > 0 { SeenSnoc(log, msg, n - 1); }
  }

  lemma ObeysSnoc(w: World, a: nat, log: seq<Msg>, msg: Msg)
    requires Obeys(w, a, log) && Delivers(w, a, Seen(log, |log|), msg)
    ensures Obeys(w, a, log + [msg])
  {
    hide Delivers, Seen;
    forall i | 0 <= i < |log| + 1 ensures Delivers(w, a, Seen(log + [msg], i), (log + [msg])[i]) {
      SeenSnoc(log, msg, i);
    }
  }

  // ---- the invariant ------------------------------------------------------

  ghost predicate Received(w: World, a: nat, m: State, seen: set<EntityEvent>) {
    && |m.wm| == |m.recv| == |w.sources|
    && (forall e :: e in seen ==> Routed(w, a, e))
    && (forall e :: Routed(w, a, e) ==> (e in seen <==> !e.MarkOf().After(m.recv[e.src])))
    && (forall e :: Routed(w, a, e) && e.At().AtMost(m.wm[e.src]) ==> e in seen)
  }

  ghost predicate Held(w: World, a: nat, m: State, seen: set<EntityEvent>) {
    && InOrder(m.buf)
    && (forall e :: e in m.buf <==> e in seen && Low(m.wm).Less(e.At()))
    && m.last.pos.AtMost(Low(m.wm)) && m.late == 0
  }

  /** All that low lets out has been let out, once and in order, and nothing else has. */
  ghost predicate Released(w: World, a: nat, low: Pos, released: seq<EntityEvent>) {
    && InOrder(released)
    && (forall e :: e in released <==> Routed(w, a, e) && e.At().AtMost(low))
  }

  ghost predicate Inv(w: World, a: nat, m: State, seen: set<EntityEvent>, released: seq<EntityEvent>) {
    Received(w, a, m, seen) && Held(w, a, m, seen) && Released(w, a, Low(m.wm), released)
  }

  lemma FreshInv(w: World, a: nat)
    requires Sound(w)
    ensures Inv(w, a, Fresh(|w.sources|), {}, [])
  {
    var m := Fresh(|w.sources|);
    LowIsLeast(m.wm, MAX_POS);
    forall e | Routed(w, a, e) ensures MIN_POS.Less(e.At()) && Low(m.wm).Less(e.At()) {
      assert Low(m.wm).AtMost(m.wm[e.src]);
    }
  }

  lemma AddInv(w: World, a: nat, m: State, seen: set<EntityEvent>, released: seq<EntityEvent>, e: EntityEvent)
    requires Inv(w, a, m, seen, released) && Delivers(w, a, seen, Ev(e))
    ensures Inv(w, a, Add(m, e).state, seen + {e}, released) && Add(m, e).events == []
    ensures Add(m, e).state.wm == m.wm
  {
    hide LowFrom, KeyOf, Insert, InOrder, Released;
    LowIsLeast(m.wm, MAX_POS);
    if e.MarkOf().After(m.recv[e.src]) {
      assert e !in seen;
      forall d | Routed(w, a, d) && d.src == e.src && d.MarkOf() == e.MarkOf()
        ensures d == e { MarkNamesEvent(w, a, d, e); }
      forall x | x in m.buf ensures Before(x, e) || Before(e, x) { RoutedAreOrdered(w, a, x, e); }
      InsertInOrder(m.buf, e);
      forall x ensures x in Insert(m.buf, e) <==> x == e || x in m.buf { InsertHas(m.buf, e, x); }
    } else {
      assert seen + {e} == seen;
    }
  }

  lemma LowCovers(w: World, a: nat, m: State, seen: set<EntityEvent>, e: EntityEvent)
    requires Received(w, a, m, seen) && Routed(w, a, e) && e.At().AtMost(Low(m.wm))
    ensures e in seen
  {
    LowIsLeast(m.wm, MAX_POS);
    assert Low(m.wm).AtMost(m.wm[e.src]);
  }

  lemma ReleaseHeld(w: World, a: nat, m: State, low: Pos, seen: set<EntityEvent>)
    requires InOrder(m.buf) && m.late == 0 && low.AtMost(Low(m.wm)) && m.last.pos.AtMost(low)
    requires forall e :: e in m.buf <==> e in seen && low.Less(e.At())
    ensures Held(w, a, Release(m).state, seen)
  {
    hide LowFrom, InOrder, Due, NotDue;
    var due, rest := Due(m.buf, Low(m.wm)), NotDue(m.buf, Low(m.wm));
    DueAndNotDue(m.buf, Low(m.wm));
    forall e ensures e in m.buf <==> e in due || e in rest {
      assert m.buf == due + rest;
    }
  }

  /** Watermarks have moved; what is now due is exactly what release gives out. */
  lemma ReleaseReleased(w: World, a: nat, m: State, low: Pos, seen: set<EntityEvent>, released: seq<EntityEvent>)
    requires Received(w, a, m, seen) && InOrder(m.buf) && low.AtMost(Low(m.wm))
    requires forall e :: e in m.buf <==> e in seen && low.Less(e.At())
    requires Released(w, a, low, released)
    ensures Released(w, a, Low(m.wm), released + Release(m).events)
  {
    hide Routed, LowFrom, InOrder, Due, NotDue;
    var due, rest := Due(m.buf, Low(m.wm)), NotDue(m.buf, Low(m.wm));
    DueAndNotDue(m.buf, Low(m.wm));
    InOrderConcat(released, due);
    forall e ensures e in m.buf <==> e in due || e in rest {
      assert m.buf == due + rest;
    }
    forall e ensures e in released + due <==> Routed(w, a, e) && e.At().AtMost(Low(m.wm)) {
      if Routed(w, a, e) && e.At().AtMost(Low(m.wm)) { LowCovers(w, a, m, seen, e); }
    }
  }

  lemma ReleaseInv(w: World, a: nat, m: State, low: Pos, seen: set<EntityEvent>, released: seq<EntityEvent>)
    requires Received(w, a, m, seen) && InOrder(m.buf) && m.late == 0
    requires low.AtMost(Low(m.wm)) && m.last.pos.AtMost(low)
    requires forall e :: e in m.buf <==> e in seen && low.Less(e.At())
    requires Released(w, a, low, released)
    ensures Inv(w, a, Release(m).state, seen, released + Release(m).events)
  {
    ReleaseHeld(w, a, m, low, seen);
    ReleaseReleased(w, a, m, low, seen, released);
    hide Held, Released;
  }

  lemma AdvanceReceived(w: World, a: nat, m: State, seen: set<EntityEvent>, s: nat, p: Pos)
    requires Received(w, a, m, seen) && Delivers(w, a, seen, Wm(s, p))
    ensures Received(w, a, Advance(m, s, p), seen)
    ensures Low(m.wm).AtMost(Low(Advance(m, s, p).wm))
  {
    LowIsLeast(m.wm, MAX_POS);
    LowIsLeast(Advance(m, s, p).wm, MAX_POS);
  }

  /** Every record that keeps the contract keeps the invariant: in particular nothing is ever late. */
  lemma StepInv(w: World, a: nat, m: State, seen: set<EntityEvent>, released: seq<EntityEvent>, msg: Msg)
    requires Inv(w, a, m, seen, released) && Delivers(w, a, seen, msg)
    ensures Step(m, msg).Some? && |Step(m, msg).value.state.wm| == |Step(m, msg).value.state.recv|
    ensures var x := Step(m, msg).value;
            Inv(w, a, x.state, seen + Events(msg), released + x.events)
  {
    match msg
    case Ev(e) =>
      AddInv(w, a, m, seen, released, e);
      ReleaseInv(w, a, Add(m, e).state, Low(m.wm), seen + {e}, released);
      assert Add(m, e).events + Release(Add(m, e).state).events == Release(Add(m, e).state).events;
    case Wm(s, p) =>
      AdvanceReceived(w, a, m, seen, s, p);
      ReleaseInv(w, a, Advance(m, s, p), Low(m.wm), seen, released);
      assert seen + {} == seen;
  }

  // ---- whole runs ---------------------------------------------------------

  datatype Run = Run(state: State, released: seq<EntityEvent>)

  /** The state and everything released after a log's first n records; an error stops the partition. */
  function RunLog(sources: nat, log: seq<Msg>, n: nat): (r: Run)
    requires n <= |log|
    ensures |r.state.wm| == |r.state.recv|
  {
    if n == 0 then Run(Fresh(sources), [])
    else
      var r := RunLog(sources, log, n - 1);
      var x := Step(r.state, log[n - 1]);
      if x.None? then r else Run(x.value.state, r.released + x.value.events)
  }

  lemma {:induction false} RunInv(w: World, a: nat, log: seq<Msg>, n: nat)
    requires Sound(w) && Obeys(w, a, log) && n <= |log|
    ensures var r := RunLog(|w.sources|, log, n); Inv(w, a, r.state, Seen(log, n), r.released)
  {
    hide Inv, Received, Held, Released, Delivers, Step, Sound, Fresh;
    if n == 0 {
      FreshInv(w, a);
    } else {
      RunInv(w, a, log, n - 1);
      var r := RunLog(|w.sources|, log, n - 1);
      StepInv(w, a, r.state, Seen(log, n - 1), r.released, log[n - 1]);
    }
  }

  /** What has been released is always the least part of the sorted merge of the sources. */
  lemma ReleasedIsPrefix(w: World, a: nat, low: Pos, released: seq<EntityEvent>)
    requires Released(w, a, low, released)
    ensures released <= Merged(w, a)
    ensures low == MAX_POS && Sound(w) ==> released == Merged(w, a)
  {
    MergedIsSorted(w, a);
    LeastArePrefix(released, Merged(w, a));
    if low == MAX_POS && Sound(w) {
      forall e | e in Merged(w, a) ensures e in released { assert PaymentAt(w, e.src, e.offset); }
      SameEventsSameList(released, Merged(w, a));
    }
  }

  /** However the sources' records are interleaved or repeated in a log that keeps the contract, after any prefix of it
  the output is the ordered list of the distinct events seen that the least watermark covers; none came late. */
  lemma ReleasesInOrder(w: World, a: nat, log: seq<Msg>, n: nat)
    requires Sound(w) && Obeys(w, a, log) && n <= |log|
    ensures var r := RunLog(|w.sources|, log, n);
            && (forall e :: e in r.released <==> e in Seen(log, n) && e.At().AtMost(Low(r.state.wm)))
            && InOrder(r.released) && r.released <= Merged(w, a)
            && (Low(r.state.wm) == MAX_POS ==> r.released == Merged(w, a))
            && r.state.late == 0
  {
    var r := RunLog(|w.sources|, log, n);
    RunInv(w, a, log, n);
    ReleasedIsPrefix(w, a, Low(r.state.wm), r.released);
    forall e | Routed(w, a, e) && e.At().AtMost(Low(r.state.wm)) ensures e in Seen(log, n) {
      LowCovers(w, a, r.state, Seen(log, n), e);
    }
  }
}
