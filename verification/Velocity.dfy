/** Velocity state by key with an idle TTL (internal/features/keyed.go, internal/features/state.go). */
module Velocity {
  import opened Domain
  import opened Windows

  const IDLE_TTL := 2592000

  // ---- one key ------------------------------------------------------------

  /** A key's history if it was active within the TTL. */
  function Live(h: Option<History>, now: int): Option<History> {
    if h.Some? && now - h.value.last < IDLE_TTL then h else None
  }

  function Answer(h: Option<History>, e: Entity, now: int): Aggregates {
    var l := Live(h, now);
    if l.Some? then View(l.value, TracksDistinct(e), now) else Unseen(e)
  }

  /** Recording starts a forgotten key afresh. */
  function Recorded(h: Option<History>, ev: Event): History {
    var l := Live(h, ev.time);
    if l.Some? then Record(l.value, ev) else Start(ev)
  }

  // ---- the payments of one key ----------------------------------------------

  /** Payments in the order they were applied, oldest first. */
  datatype Trail = Nobody | Then(before: Trail, txn: Txn)

  function Fold(tr: Trail): Option<History> {
    if tr.Nobody? then None else Some(Recorded(Fold(tr.before), EventOf(tr.txn)))
  }

  /** The payments of key k among the first n. */
  function TrailOf(k: Key, txns: seq<Txn>, n: nat): Trail
    requires n <= |txns|
  {
    if n == 0 then Nobody
    else if KeyOf(txns[n - 1], k.entity) == Some(k) then Then(TrailOf(k, txns, n - 1), txns[n - 1])
    else TrailOf(k, txns, n - 1)
  }

  function Payments(tr: Trail): set<Txn> {
    if tr.Nobody? then {} else Payments(tr.before) + {tr.txn}
  }

  predicate InTime(tr: Trail) {
    tr.Then? ==> InTime(tr.before) && (tr.before.Then? ==> PosOf(tr.before.txn).Less(PosOf(tr.txn)))
  }

  lemma {:induction false} LastIsLatest(tr: Trail, t: Txn)
    requires InTime(tr) && tr.Then? && t in Payments(tr.before)
    ensures PosOf(t).Less(PosOf(tr.txn))
  {
    if tr.before.Then? && t != tr.before.txn {
      LastIsLatest(tr.before, t);
    }
  }

  lemma HasLast(tr: Trail)
    ensures tr.Then? ==> tr.txn in Payments(tr)
  {}

  /** In time order there is only one way to apply a set of payments. */
  lemma {:induction false} SamePaymentsSameTrail(a: Trail, b: Trail)
    requires InTime(a) && InTime(b) && Payments(a) == Payments(b)
    ensures a == b
  {
    HasLast(a);
    HasLast(b);
    if a.Then? && b.Then? {
      if a.txn != b.txn {
        LastIsLatest(a, b.txn);
        LastIsLatest(b, a.txn);
      }
      if a.txn in Payments(a.before) { LastIsLatest(a, a.txn); }
      if b.txn in Payments(b.before) { LastIsLatest(b, b.txn); }
      assert Payments(a.before) == Payments(a) - {a.txn};
      assert Payments(b.before) == Payments(b) - {b.txn};
      SamePaymentsSameTrail(a.before, b.before);
    }
  }

  // ---- forgetting never changes a count or a sum ------------------------------

  function AllEvents(tr: Trail): seq<Event> {
    if tr.Nobody? then [] else AllEvents(tr.before) + [EventOf(tr.txn)]
  }

  lemma {:induction false} AllExpired(evs: seq<Event>, cutoff: int)
    requires forall i :: 0 <= i < |evs| ==> evs[i].time <= cutoff
    ensures Trim(evs, cutoff) == [] && CountAfter(evs, cutoff) == 0 && SumAfter(evs, cutoff) == 0
    ensures CardsAfter(evs, cutoff) == {}
    decreases |evs|
  {
    if evs != [] { AllExpired(evs[1..], cutoff); }
  }

  lemma {:induction false} NoneLater(tr: Trail)
    requires InTime(tr)
    ensures tr.Then? ==> Fold(tr).value.last == tr.txn.dt
    ensures tr.Then? ==> forall i :: 0 <= i < |AllEvents(tr)| ==> AllEvents(tr)[i].time <= tr.txn.dt
    ensures tr.Nobody? ==> AllEvents(tr) == []
  {
    if tr.Then? { NoneLater(tr.before); }
  }

  lemma {:induction false} RecentIsTrimmed(tr: Trail)
    requires InTime(tr) && tr.Then?
    ensures Fold(tr).value.recent == Trim(AllEvents(tr), tr.txn.dt - WEEK_SECONDS)
  {
    hide View;
    var ev := EventOf(tr.txn);
    var earlier := AllEvents(tr.before);
    NoneLater(tr.before);
    if tr.before.Then? {
      RecentIsTrimmed(tr.before);
      var h := Fold(tr.before);
      TrimSnoc(earlier, ev, ev.time - WEEK_SECONDS);
      if Live(h, ev.time).Some? {
        TrimTrim(earlier, tr.before.txn.dt - WEEK_SECONDS, ev.time - WEEK_SECONDS);
      } else {
        AllExpired(earlier, ev.time - WEEK_SECONDS);
      }
    } else {
      assert [] + [ev] == [ev];
    }
  }

  /** Two aggregates count the same payments. */
  predicate SameWindows(a: Aggregates, b: Aggregates) {
    a.count == b.count && a.milli == b.milli && a.distinct == b.distinct
  }

  lemma LiveKeepsWindows(tr: Trail, tracks: bool, now: int)
    requires InTime(tr) && tr.Then? && tr.txn.dt <= now
    ensures SameWindows(View(Fold(tr).value, tracks, now), Measure(AllEvents(tr), tracks, now, now, now))
  {
    NoneLater(tr);
    RecentIsTrimmed(tr);
    var all, last := AllEvents(tr), tr.txn.dt;
    MeasureOfTrim(all, last - WEEK_SECONDS, now - Seconds(0));
    MeasureOfTrim(all, last - WEEK_SECONDS, now - Seconds(1));
    MeasureOfTrim(all, last - WEEK_SECONDS, now - Seconds(2));
    hide AllEvents, Fold, InTime, Trim, CountAfter, SumAfter, CardsAfter;
  }

  lemma IdleKeepsWindows(tr: Trail, e: Entity, now: int)
    requires InTime(tr) && tr.Then? && now - tr.txn.dt >= IDLE_TTL
    ensures SameWindows(Unseen(e), Measure(AllEvents(tr), TracksDistinct(e), now, now, now))
  {
    NoneLater(tr);
    AllExpired(AllEvents(tr), now - Seconds(0));
    AllExpired(AllEvents(tr), now - Seconds(1));
    AllExpired(AllEvents(tr), now - Seconds(2));
    hide AllEvents, Fold, InTime, Trim, CountAfter, SumAfter, CardsAfter;
  }

  /** Forgetting never shows in a window: counts, sums and distinct cards are those of all the payments the key ever
  had. Only its first and last times begin anew. */
  lemma ForgettingKeepsWindows(tr: Trail, e: Entity, now: int)
    requires InTime(tr) && (tr.Then? ==> tr.txn.dt <= now)
    ensures SameWindows(Answer(Fold(tr), e, now), Measure(AllEvents(tr), TracksDistinct(e), now, now, now))
  {
    hide InTime, View, Measure;
    if tr.Then? {
      NoneLater(tr);
      if now - tr.txn.dt < IDLE_TTL {
        LiveKeepsWindows(tr, TracksDistinct(e), now);
      } else {
        IdleKeepsWindows(tr, e, now);
      }
    } else {
      NothingMeasured(e, now);
    }
  }

  lemma NothingMeasured(e: Entity, now: int)
    ensures SameWindows(Unseen(e), Measure([], TracksDistinct(e), now, now, now))
  {}

  // ---- the store --------------------------------------------------------------

  type Store = map<Key, History>

  function Get(st: Store, k: Key): Option<History> { if k in st then Some(st[k]) else None }

  function Evicted(st: Store, now: int): Store { map k | k in st && now - st[k].last < IDLE_TTL :: st[k] }

  /** What a store holds for a key is the key's history, unless the key is idle and was forgotten. */
  predicate Agrees(got: Option<History>, tr: Trail, now: int) {
    got == Fold(tr) || (got.None? && Live(Fold(tr), now).None?)
  }

  /** From then on they cannot be told apart, whenever and whether or not a sweep ran. */
  lemma AgreesForever(got: Option<History>, tr: Trail, e: Entity, then_: int, now: int)
    requires Agrees(got, tr, then_) && then_ <= now
    ensures Answer(got, e, now) == Answer(Fold(tr), e, now)
    ensures Agrees(got, tr, now) && Agrees(Live(got, now), tr, now)
  {}

  lemma RecordedAgrees(got: Option<History>, tr: Trail, t: Txn, then_: int)
    requires Agrees(got, tr, then_) && then_ <= t.dt
    ensures Agrees(Some(Recorded(got, EventOf(t))), Then(tr, t), t.dt)
  {}
}
