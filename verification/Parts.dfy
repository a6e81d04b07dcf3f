/** What the joiner of a payment is sent: the payment itself and one part per entity, and why those
parts are the ones replay computes (internal/stream/wire.go, internal/stream/aggregate.go). */
module Parts {
  import opened Numbers
  import opened Domain
  import opened Feed
  import opened Velocity
  import opened Engine
  import opened Replay

  datatype Msg =
    | Base(src: nat, offset: nat, pid: string, mask: set<Entity>, txn: Txn)
    | Part(agg: nat, num: nat, pid: string, entity: Entity, values: seq<Num>)

  /** The entities of a payment that have a key, and so a part to come. */
  function MaskOf(t: Txn): set<Entity> { set e: Entity | e in {CARD, UID, DEVICE, EMAIL} && KeyOf(t, e).Some? }

  /** The payments of key k among the first n events. */
  function EventTrail(k: Key, events: seq<EntityEvent>, n: nat): Trail
    requires n <= |events|
  {
    if n == 0 then Nobody
    else if KeyOf(events[n - 1].txn, events[n - 1].entity) == Some(k)
    then Then(EventTrail(k, events, n - 1), events[n - 1].txn)
    else EventTrail(k, events, n - 1)
  }

  /** The n-th part an aggregator makes when these are the events it applies. */
  function PartAt(a: nat, events: seq<EntityEvent>, n: nat): Msg
    requires n < |events|
  {
    var e := events[n];
    var k := KeyOf(e.txn, e.entity);
    var tr := if k.Some? then EventTrail(k.value, events, n) else Nobody;
    Part(a, n, e.pid, e.entity, PartOf(tr, e.entity, e.txn))
  }

  lemma {:induction false} TrailOfPrefix(k: Key, some: seq<EntityEvent>, all: seq<EntityEvent>, n: nat)
    requires some <= all && n <= |some|
    ensures EventTrail(k, some, n) == EventTrail(k, all, n)
    decreases n
  {
    if n > 0 { TrailOfPrefix(k, some, all, n - 1); }
  }

  lemma PartOfPrefix(a: nat, some: seq<EntityEvent>, all: seq<EntityEvent>, n: nat)
    requires some <= all && n < |some|
    ensures PartAt(a, some, n) == PartAt(a, all, n)
  {
    var k := KeyOf(some[n].txn, some[n].entity);
    if k.Some? { TrailOfPrefix(k.value, some, all, n); }
    hide KeyOf, PartOf;
  }

  // ---- the reference --------------------------------------------------------

  ghost predicate IsPayment(w: World, t: Txn) {
    exists s: nat, i: nat :: PaymentAt(w, s, i) && w.sources[s][i].txn == t
  }

  /** txns is what the offline replay reads: every payment of every partition, in order. */
  ghost predicate IsHistory(w: World, txns: seq<Txn>) {
    Increasing(txns, |txns|) && forall t :: t in txns <==> IsPayment(w, t)
  }

  lemma {:induction false} IncreasingAt(txns: seq<Txn>, i: nat, j: nat)
    requires Increasing(txns, |txns|) && i < j < |txns|
    ensures PosOf(txns[i]).Less(PosOf(txns[j]))
    decreases j - i
  {
    if i + 1 < j { IncreasingAt(txns, i, j - 1); }
  }

  /** The payments of key k strictly before position p. */
  ghost predicate EarlierOf(w: World, k: Key, p: Pos, t: Txn) {
    IsPayment(w, t) && KeyOf(t, k.entity) == Some(k) && PosOf(t).Less(p)
  }

  lemma {:induction false} TrailOfPayments(k: Key, txns: seq<Txn>, n: nat, t: Txn)
    requires n <= |txns|
    ensures t in Payments(TrailOf(k, txns, n)) <==> KeyOf(t, k.entity) == Some(k) && t in txns[..n]
    decreases n
  {
    hide KeyOf;
    if n > 0 {
      TrailOfPayments(k, txns, n - 1, t);
      assert txns[..n] == txns[..n - 1] + [txns[n - 1]];
    }
  }

  lemma {:induction false} TrailOfInTime(k: Key, txns: seq<Txn>, n: nat)
    requires n <= |txns| && Increasing(txns, |txns|)
    ensures InTime(TrailOf(k, txns, n))
    ensures TrailOf(k, txns, n).Then? ==> exists i: nat :: i < n && TrailOf(k, txns, n).txn == txns[i]
    decreases n
  {
    hide KeyOf;
    if n > 0 {
      TrailOfInTime(k, txns, n - 1);
      var tr := TrailOf(k, txns, n - 1);
      if tr.Then? {
        var i: nat :| i < n - 1 && tr.txn == txns[i];
        IncreasingAt(txns, i, n - 1);
      }
    }
  }

  lemma InPrefix(txns: seq<Txn>, i: nat, t: Txn)
    requires i <= |txns|
    ensures t in txns[..i] <==> exists j: nat :: j < i && txns[j] == t
  {
    if t in txns[..i] {
      var j :| 0 <= j < i && txns[..i][j] == t;
      assert txns[j] == t;
    }
    forall j: nat | j < i && txns[j] == t ensures t in txns[..i] { assert txns[..i][j] == t; }
  }

  /** Before payment i, replay has applied to a key the payments of the key at earlier positions. */
  lemma HistoryTrail(w: World, txns: seq<Txn>, i: nat, k: Key, t: Txn)
    requires IsHistory(w, txns) && i < |txns|
    ensures t in Payments(TrailOf(k, txns, i)) <==> EarlierOf(w, k, PosOf(txns[i]), t)
  {
    TrailOfPayments(k, txns, i, t);
    InPrefix(txns, i, t);
    hide KeyOf, IsPayment;
    forall j: nat | j < |txns| && txns[j] == t ensures PosOf(t).Less(PosOf(txns[i])) <==> j < i {
      if j < i { IncreasingAt(txns, j, i); }
      if i < j { IncreasingAt(txns, i, j); }
    }
  }

  lemma {:induction false} InOrderAt(s: seq<EntityEvent>, x: nat, y: nat)
    requires InOrder(s) && x < y < |s|
    ensures Before(s[x], s[y])
    decreases x
  {
    if x == 0 {
      assert s[y] == s[1..][y - 1];
      HeadIsLeast(s, s[y]);
    } else {
      assert s[x] == s[1..][x - 1] && s[y] == s[1..][y - 1];
      InOrderAt(s[1..], x - 1, y - 1);
    }
  }

  lemma {:induction false} EventTrailPayments(k: Key, events: seq<EntityEvent>, n: nat, t: Txn)
    requires n <= |events|
    ensures t in Payments(EventTrail(k, events, n))
       <==> exists x: nat :: x < n && events[x].txn == t && KeyOf(t, events[x].entity) == Some(k)
    decreases n
  {
    hide KeyOf;
    if n > 0 {
      EventTrailPayments(k, events, n - 1, t);
      var e := events[n - 1];
      if t in Payments(EventTrail(k, events, n)) && t !in Payments(EventTrail(k, events, n - 1)) {
        assert e.txn == t;
      }
    }
  }

  /** Two events of one key at one position are one event. */
  lemma SameKeySamePosition(w: World, a: nat, d: EntityEvent, e: EntityEvent, k: Key)
    requires Sound(w) && Routed(w, a, d) && Routed(w, a, e) && d.At() == e.At()
    requires KeyOf(d.txn, d.entity) == Some(k) && KeyOf(e.txn, e.entity) == Some(k)
    ensures d == e
  {
    KeyNamesItsEntity(d.txn, d.entity);
    KeyNamesItsEntity(e.txn, e.entity);
    hide KeyOf;
    assert SamePayment(w.sources[d.src][d.offset], w.sources[e.src][e.offset]);
  }

  /** Before its n-th event, an aggregator has applied to the event's key what replay has. */
  lemma MergedTrail(w: World, a: nat, n: nat, k: Key, t: Txn)
    requires Sound(w) && n < |Merged(w, a)| && KeyOf(Merged(w, a)[n].txn, Merged(w, a)[n].entity) == Some(k)
    ensures t in Payments(EventTrail(k, Merged(w, a), n)) <==> EarlierOf(w, k, Merged(w, a)[n].At(), t)
  {
    var m := Merged(w, a);
    var e := m[n];
    MergedIsSorted(w, a);
    EventTrailPayments(k, m, n, t);
    KeyNamesItsEntity(e.txn, e.entity);
    hide KeyOf, Merged, InOrder;
    assert e in m;
    if t in Payments(EventTrail(k, m, n)) {
      var x: nat :| x < n && m[x].txn == t && KeyOf(t, m[x].entity) == Some(k);
      KeyNamesItsEntity(t, m[x].entity);
      assert m[x] in m && PaymentAt(w, m[x].src, m[x].offset);
      InOrderAt(m, x, n);
      if m[x].At() == e.At() { SameKeySamePosition(w, a, m[x], e, k); }
    }
    if EarlierOf(w, k, e.At(), t) {
      var s: nat, i: nat :| PaymentAt(w, s, i) && w.sources[s][i].txn == t;
      var d := EntityEvent(s, i, k.entity, w.sources[s][i].pid, t);
      assert d in m;
      var x :| 0 <= x < |m| && m[x] == d;
      if n < x { InOrderAt(m, n, x); }
    }
  }

  lemma {:induction false} MergedTrailInTime(w: World, a: nat, n: nat, k: Key)
    requires Sound(w) && n <= |Merged(w, a)|
    ensures var tr := EventTrail(k, Merged(w, a), n);
            InTime(tr) && (tr.Then? ==> exists x: nat :: x < n && LastEvent(k, Merged(w, a), x, tr.txn))
    decreases n
  {
    var m := Merged(w, a);
    if n > 0 {
      MergedTrailInTime(w, a, n - 1, k);
      hide KeyOf, Merged, InOrder;
      var tr, e := EventTrail(k, m, n - 1), m[n - 1];
      if KeyOf(e.txn, e.entity) == Some(k) {
        if tr.Then? {
          var x: nat :| x < n - 1 && LastEvent(k, m, x, tr.txn);
          MergedIsSorted(w, a);
          InOrderAt(m, x, n - 1);
          assert m[x] in m && e in m;
          if m[x].At() == e.At() { SameKeySamePosition(w, a, m[x], e, k); }
          KeyNamesItsEntity(e.txn, e.entity);
          KeyNamesItsEntity(tr.txn, m[x].entity);
        }
        assert LastEvent(k, m, n - 1, e.txn);
      }
    }
  }

  predicate LastEvent(k: Key, events: seq<EntityEvent>, x: nat, t: Txn) {
    x < |events| && events[x].txn == t && KeyOf(t, events[x].entity) == Some(k)
  }

  /** The n-th part of an aggregator carries the features replay computes for that payment. */
  lemma PartIsReplays(w: World, a: nat, n: nat, txns: seq<Txn>, i: nat)
    requires Sound(w) && IsHistory(w, txns) && n < |Merged(w, a)| && i < |txns| && Merged(w, a)[n].txn == txns[i]
    ensures var p := PartAt(a, Merged(w, a), n); p.values == PartsOf(TrailsOf(txns, i), txns[i])[p.entity]
  {
    var m := Merged(w, a);
    MergedIsSorted(w, a);
    assert m[n] in m;
    var k := KeyOf(m[n].txn, m[n].entity).value;
    KeyNamesItsEntity(m[n].txn, m[n].entity);
    forall t ensures t in Payments(EventTrail(k, m, n)) <==> t in Payments(TrailOf(k, txns, i)) {
      MergedTrail(w, a, n, k, t);
      HistoryTrail(w, txns, i, k, t);
    }
    MergedTrailInTime(w, a, n, k);
    TrailOfInTime(k, txns, i);
    SamePaymentsSameTrail(EventTrail(k, m, n), TrailOf(k, txns, i));
  }
}
