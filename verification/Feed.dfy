/** What flows through the stream pipeline: payments partitions, the entity events the routers make
of them, and the order those events are applied in (internal/stream/route.go, internal/stream/merge.go,
internal/stream/topics.go). */
module Feed {
  import opened Domain

  /** A record of a payments partition; what cannot be decoded goes to the dead-letter topic. */
  datatype Record = Payment(pid: string, txn: Txn) | Heartbeat(pos: Pos) | Malformed {
    /** The record moves its partition to a position. */
    predicate Positioned() { !Malformed? }
    function At(): Pos { if Payment? then PosOf(txn) else if Heartbeat? then pos else MIN_POS }
  }

  /** The topics' partition counts, and where the hashes place keys and payment ids. */
  datatype Topology = Topology(entParts: nat, joinParts: nat, entPart: Key -> nat, joinPart: string -> nat)

  /** The payments partitions with everything they will ever hold. */
  datatype World = World(sources: seq<seq<Record>>, topo: Topology)

  predicate PaymentAt(w: World, s: nat, i: nat) {
    s < |w.sources| && i < |w.sources[s]| && w.sources[s][i].Payment?
  }

  predicate SamePayment(a: Record, b: Record)
    requires a.Payment? && b.Payment?
  {
    a.At() == b.At() || a.pid == b.pid
  }

  /** The payment stream's contract: a partition carries nothing at or before a position it has
  reached, and positions and payment ids are unique. */
  ghost predicate Sound(w: World) {
    && (forall k :: w.topo.entPart(k) < w.topo.entParts) && (forall id :: w.topo.joinPart(id) < w.topo.joinParts)
    && (forall s: nat, i: nat, j: nat :: PaymentAt(w, s, j) && i < j && w.sources[s][i].Positioned() ==>
          w.sources[s][i].At().Less(w.sources[s][j].At()))
    && (forall s: nat, i: nat :: PaymentAt(w, s, i) ==>
          MIN_POS.Less(w.sources[s][i].At()) && w.sources[s][i].At().AtMost(MAX_POS))
    && (forall s: nat, i: nat, t: nat, j: nat ::
      PaymentAt(w, s, i) && PaymentAt(w, t, j) && SamePayment(w.sources[s][i], w.sources[t][j]) ==>
          s == t && i == j)
  }

  // ---- entity events ----------------------------------------------------

  /** How far a source's output has come; entities of one record are told apart by their number. */
  datatype Mark = Mark(offset: int, entity: int) {
    predicate After(b: Mark) { offset > b.offset || (offset == b.offset && entity > b.entity) }
  }

  /** A payment as seen by one of its keys; the router fans a payment out into at most four of these. */
  datatype EntityEvent = EntityEvent(src: nat, offset: nat, entity: Entity, pid: string, txn: Txn) {
    function At(): Pos { PosOf(txn) }
    function MarkOf(): Mark { Mark(offset, entity) }
  }

  /** e is an event that the router of its source makes for aggregator partition a. */
  predicate Routed(w: World, a: nat, e: EntityEvent) {
    && PaymentAt(w, e.src, e.offset)
    && w.sources[e.src][e.offset] == Payment(e.pid, e.txn)
    && KeyOf(e.txn, e.entity).Some?
    && w.topo.entPart(KeyOf(e.txn, e.entity).value) == a
  }

  lemma MarkNamesEvent(w: World, a: nat, d: EntityEvent, e: EntityEvent)
    requires Routed(w, a, d) && Routed(w, a, e) && d.src == e.src && d.MarkOf() == e.MarkOf()
    ensures d == e
  {}

  // ---- release order ----------------------------------------------------

  /** What orders the merger's output; no two events of a sound stream have the same one. */
  datatype ReleaseKey = ReleaseKey(pos: Pos, entity: int, src: int, offset: int) {
    predicate Less(b: ReleaseKey) {
      if pos != b.pos then pos.Less(b.pos)
      else if entity != b.entity then entity < b.entity
      else if src != b.src then src < b.src
      else offset < b.offset
    }
  }

  function ReleaseKeyOf(e: EntityEvent): ReleaseKey { ReleaseKey(e.At(), e.entity, e.src, e.offset) }

  predicate Before(a: EntityEvent, b: EntityEvent) { ReleaseKeyOf(a).Less(ReleaseKeyOf(b)) }

  predicate InOrder(s: seq<EntityEvent>) {
    |s| > 1 ==> Before(s[0], s[1]) && InOrder(s[1..])
  }

  lemma {:induction false} HeadIsLeast(s: seq<EntityEvent>, e: EntityEvent)
    requires InOrder(s) && |s| > 0 && e in s[1..]
    ensures Before(s[0], e)
    decreases |s|
  {
    if e != s[1] {
      assert e in s[1..][1..];
      HeadIsLeast(s[1..], e);
    }
  }

  /** An ordered list is a prefix of another when it holds the other's least events. */
  lemma {:induction false} LeastArePrefix(s: seq<EntityEvent>, all: seq<EntityEvent>)
    requires InOrder(s) && InOrder(all)
    requires forall e :: e in s ==> e in all
    requires forall d, e :: d in s && e in all && e !in s ==> Before(d, e)
    ensures s <= all
    decreases |s|
  {
    if s != [] {
      assert s[0] in s && s[0] in all && all[0] in all;
      if s[0] != all[0] {
        HeadIsLeast(all, s[0]);
        if all[0] in s { HeadIsLeast(s, all[0]); }
      }
      forall e | e in s[1..] ensures e in all[1..] && e != s[0] {
        assert e in s;
        HeadIsLeast(s, e);
      }
      forall e | e in all[1..] ensures e != s[0] { HeadIsLeast(all, e); }
      LeastArePrefix(s[1..], all[1..]);
    }
  }

  lemma SameEventsSameList(s: seq<EntityEvent>, all: seq<EntityEvent>)
    requires InOrder(s) && InOrder(all) && forall e :: e in s <==> e in all
    ensures s == all
  {
    LeastArePrefix(s, all);
    LeastArePrefix(all, s);
  }

  /** Puts an event in its place. */
  function Insert(s: seq<EntityEvent>, e: EntityEvent): seq<EntityEvent> {
    if s == [] || Before(e, s[0]) then [e] + s else [s[0]] + Insert(s[1..], e)
  }

  lemma {:induction false} InsertHas(s: seq<EntityEvent>, e: EntityEvent, x: EntityEvent)
    ensures x in Insert(s, e) <==> x == e || x in s
    decreases |s|
  {
    if s != [] && !Before(e, s[0]) {
      InsertHas(s[1..], e, x);
    }
  }

  lemma {:induction false} InsertInOrder(s: seq<EntityEvent>, e: EntityEvent)
    requires InOrder(s) && forall x :: x in s ==> Before(x, e) || Before(e, x)
    ensures InOrder(Insert(s, e))
    ensures Insert(s, e)[0] == e || (s != [] && Insert(s, e)[0] == s[0])
    decreases |s|
  {
    if s != [] && !Before(e, s[0]) {
      InsertInOrder(s[1..], e);
    }
  }

  lemma {:induction false} InOrderConcat(s: seq<EntityEvent>, t: seq<EntityEvent>)
    requires InOrder(s) && InOrder(t) && forall d, e :: d in s && e in t ==> Before(d, e)
    ensures InOrder(s + t)
    decreases |s|
  {
    if s == [] {
      assert s + t == t;
    } else {
      assert (s + t)[1..] == s[1..] + t;
      InOrderConcat(s[1..], t);
    }
  }

  // ---- everything an aggregator partition will ever get --------------------

  /** The events the payment record (s, i), if it is one, has for aggregator a. */
  ghost function EventsAt(w: World, a: nat, s: nat, i: nat): set<EntityEvent>
    requires s < |w.sources| && i < |w.sources[s]|
  {
    var r := w.sources[s][i];
    set e: nat | e < NUM_ENTITIES && r.Payment? && KeyOf(r.txn, e).Some? && w.topo.entPart(KeyOf(r.txn, e).value) == a
      :: EntityEvent(s, i, e, r.pid, r.txn)
  }

  ghost function OfSource(w: World, a: nat, s: nat, i: nat): set<EntityEvent>
    requires s < |w.sources| && i <= |w.sources[s]|
    decreases |w.sources[s]| - i
  {
    if i == |w.sources[s]| then {} else EventsAt(w, a, s, i) + OfSource(w, a, s, i + 1)
  }

  ghost function Gathered(w: World, a: nat, s: nat): set<EntityEvent>
    requires s <= |w.sources|
    decreases |w.sources| - s
  {
    if s == |w.sources| then {} else OfSource(w, a, s, 0) + Gathered(w, a, s + 1)
  }

  ghost function SortSet(s: set<EntityEvent>): seq<EntityEvent> {
    if s == {} then []
    else
      var x :| x in s;
      Insert(SortSet(s - {x}), x)
  }

  /** Every event aggregator a will ever get, in release order. */
  ghost function Merged(w: World, a: nat): seq<EntityEvent> {
    SortSet(Gathered(w, a, 0))
  }

  lemma {:induction false} OfSourceHas(w: World, a: nat, s: nat, i: nat, x: EntityEvent)
    requires s < |w.sources| && i <= |w.sources[s]|
    ensures x in OfSource(w, a, s, i) <==> Routed(w, a, x) && x.src == s && x.offset >= i
    decreases |w.sources[s]| - i
  {
    if i < |w.sources[s]| {
      OfSourceHas(w, a, s, i + 1, x);
    }
  }

  lemma {:induction false} GatheredHas(w: World, a: nat, s: nat, x: EntityEvent)
    requires s <= |w.sources|
    ensures x in Gathered(w, a, s) <==> Routed(w, a, x) && x.src >= s
    decreases |w.sources| - s
  {
    if s < |w.sources| {
      GatheredHas(w, a, s + 1, x);
      OfSourceHas(w, a, s, 0, x);
    }
  }

  lemma {:induction false} SortSetIsSorted(s: set<EntityEvent>)
    requires forall d, e :: d in s && e in s && d != e ==> Before(d, e) || Before(e, d)
    ensures InOrder(SortSet(s)) && forall e :: e in SortSet(s) <==> e in s
  {
    if s != {} {
      var x :| x in s && SortSet(s) == Insert(SortSet(s - {x}), x);
      SortSetIsSorted(s - {x});
      InsertInOrder(SortSet(s - {x}), x);
      forall e ensures e in SortSet(s) <==> e in s { InsertHas(SortSet(s - {x}), x, e); }
    }
  }

  /** Events of different payments or entities are ordered. */
  lemma RoutedAreOrdered(w: World, a: nat, d: EntityEvent, e: EntityEvent)
    requires Routed(w, a, d) && Routed(w, a, e) && d != e
    ensures Before(d, e) || Before(e, d)
  {}

  /** Merged is the sorted list of exactly the events routed to a. */
  lemma MergedIsSorted(w: World, a: nat)
    ensures InOrder(Merged(w, a))
    ensures forall e :: e in Merged(w, a) <==> Routed(w, a, e)
  {
    forall e ensures e in Gathered(w, a, 0) <==> Routed(w, a, e) { GatheredHas(w, a, 0, e); }
    forall d, e | d in Gathered(w, a, 0) && e in Gathered(w, a, 0) && d != e ensures Before(d, e) || Before(e, d) {
      RoutedAreOrdered(w, a, d, e);
    }
    SortSetIsSorted(Gathered(w, a, 0));
  }
}
