/** Fixed-width time buckets that stand for the plain list of a key's events: what their totals count
(internal/features/bucketed.go). */
module BucketSpec {
  import opened Numbers
  import opened Domain
  import opened Windows

  /** One bucket: floor(time / width), its events' number and sum, and how many cards were last seen in it. */
  datatype Bucket = Bucket(idx: int, count: int, milli: int, lastCards: int)

  /** Bucket widths per window, each dividing its window, and the distinct-card cap. */
  datatype Plan = Plan(width: seq<int>, cap: int) {
    predicate Valid() {
      |width| == NUM_WINDOWS && cap >= 1 && forall w :: 0 <= w < NUM_WINDOWS ==>
        width[w] > 0 && Seconds(w) % width[w] == 0
    }

    /** The bucket with which window w begins, as seen at now. */
    function Oldest(w: nat, now: int): int
      requires w < |width| && w < NUM_WINDOWS && width[w] > 0
    {
      FloorDiv(now, width[w]) - Seconds(w) / width[w]
    }
  }

  // ---- edges ---------------------------------------------------------------------------

  /** The last second before bucket x. */
  function Edge(width: int, x: int): int { x * width - 1 }

  /** An event is in bucket x or a later one exactly when it is after the bucket's edge. */
  lemma EdgeMeans(t: int, width: int, x: int)
    requires width > 0
    ensures FloorDiv(t, width) >= x <==> t > Edge(width, x)
  {
    var q := t / width;
    assert q * width <= t < (q + 1) * width;
    if q >= x {
      assert x * width <= q * width;
    } else {
      assert (q + 1) * width <= x * width;
    }
  }

  /** A window's oldest bucket starts at or before the window, by less than a bucket. */
  lemma OldestEdge(p: Plan, w: nat, now: int)
    requires p.Valid() && w < NUM_WINDOWS
    ensures now - Seconds(w) - p.width[w] <= Edge(p.width[w], p.Oldest(w, now)) < now - Seconds(w)
  {
    var width := p.width[w];
    var q, span := now / width, Seconds(w) / width;
    assert Seconds(w) == span * width;
    assert q * width <= now < q * width + width;
    assert (q - span) * width == q * width - span * width;
  }

  // ---- totals of a queue -------------------------------------------------------------------

  function CountQ(q: seq<Bucket>, x: int): int {
    if q == [] then 0 else CountQ(q[..|q| - 1], x) + if q[|q| - 1].idx >= x then q[|q| - 1].count else 0
  }

  function SumQ(q: seq<Bucket>, x: int): int {
    if q == [] then 0 else SumQ(q[..|q| - 1], x) + if q[|q| - 1].idx >= x then q[|q| - 1].milli else 0
  }

  function LastQ(q: seq<Bucket>, x: int): int {
    if q == [] then 0 else LastQ(q[..|q| - 1], x) + if q[|q| - 1].idx >= x then q[|q| - 1].lastCards else 0
  }

  predicate Up(q: seq<Bucket>) { forall i, j :: 0 <= i < j < |q| ==> q[i].idx < q[j].idx }

  lemma {:induction false} DropFront(q: seq<Bucket>, x: int)
    requires q != [] && Up(q)
    ensures var b := q[0];
            && CountQ(q, x) == CountQ(q[1..], x) + (if b.idx >= x then b.count else 0)
            && SumQ(q, x) == SumQ(q[1..], x) + (if b.idx >= x then b.milli else 0)
            && LastQ(q, x) == LastQ(q[1..], x) + (if b.idx >= x then b.lastCards else 0)
    decreases |q|
  {
    if |q| > 1 {
      DropFront(q[..|q| - 1], x);
      assert q[..|q| - 1][1..] == q[1..][..|q| - 2];
    }
  }

  /** Below the first bucket every threshold is the same. */
  lemma {:induction false} AllFrom(q: seq<Bucket>, x: int, y: int)
    requires forall i :: 0 <= i < |q| ==> q[i].idx >= x && q[i].idx >= y
    ensures CountQ(q, x) == CountQ(q, y) && SumQ(q, x) == SumQ(q, y) && LastQ(q, x) == LastQ(q, y)
    decreases |q|
  {
    if q != [] { AllFrom(q[..|q| - 1], x, y); }
  }

  // ---- the plain list ------------------------------------------------------------------------

  lemma {:induction false} LaterCutoff(evs: seq<Event>, early: int, late: int)
    requires early <= late
    ensures CountAfter(evs, late) <= CountAfter(evs, early) && CardsAfter(evs, late) <= CardsAfter(evs, early)
    decreases |evs|
  {
    if evs != [] { LaterCutoff(evs[1..], early, late); }
  }

  /** From every threshold on, the queue counts exactly the events there are. */
  ghost predicate Tallies(q: seq<Bucket>, evs: seq<Event>, width: int, lo: int) {
    forall x :: x >= lo ==>
      CountQ(q, x) == CountAfter(evs, Edge(width, x)) && SumQ(q, x) == SumAfter(evs, Edge(width, x))
  }

  /** Adds an event to the newest bucket, or to a new one after it. */
  function Added(q: seq<Bucket>, idx: int, milli: int): seq<Bucket> {
    if q == [] || q[|q| - 1].idx != idx then q + [Bucket(idx, 1, milli, 0)]
    else q[..|q| - 1] + [q[|q| - 1].(count := q[|q| - 1].count + 1, milli := q[|q| - 1].milli + milli)]
  }

  lemma AddedTotals(q: seq<Bucket>, idx: int, milli: int, x: int)
    ensures CountQ(Added(q, idx, milli), x) == CountQ(q, x) + (if idx >= x then 1 else 0)
    ensures SumQ(Added(q, idx, milli), x) == SumQ(q, x) + (if idx >= x then milli else 0)
    ensures LastQ(Added(q, idx, milli), x) == LastQ(q, x)
  {
    var r := Added(q, idx, milli);
    if q == [] || q[|q| - 1].idx != idx {
      assert r[..|r| - 1] == q;
    } else {
      assert r[..|r| - 1] == q[..|q| - 1];
    }
  }

  lemma AddedTallies(q: seq<Bucket>, evs: seq<Event>, width: int, lo: int, e: Event)
    requires width > 0 && Tallies(q, evs, width, lo)
    ensures Tallies(Added(q, FloorDiv(e.time, width), e.milli), evs + [e], width, lo)
  {
    hide CountQ, SumQ, CountAfter, SumAfter, Added, Edge;
    var r := Added(q, FloorDiv(e.time, width), e.milli);
    forall x | x >= lo
      ensures CountQ(r, x) == CountAfter(evs + [e], Edge(width, x)) && SumQ(r, x) == SumAfter(evs + [e], Edge(width, x))
    {
      AddedTotals(q, FloorDiv(e.time, width), e.milli, x);
      AfterSnoc(evs, e, Edge(width, x));
      EdgeMeans(e.time, width, x);
    }
  }

  /** Buckets between lo and hi, ascending. */
  predicate Within(q: seq<Bucket>, lo: int, hi: int) { Up(q) && forall i :: 0 <= i < |q| ==> lo <= q[i].idx <= hi }

  lemma AddedWithin(q: seq<Bucket>, lo: int, idx: int, milli: int)
    requires Within(q, lo, idx) && lo <= idx
    ensures Within(Added(q, idx, milli), lo, idx) && Added(q, idx, milli) != []
    ensures Added(q, idx, milli)[|Added(q, idx, milli)| - 1].idx == idx
  {}

  /** No more buckets than indices. */
  lemma {:induction false} AtMostSpan(q: seq<Bucket>, lo: int, hi: int)
    requires Within(q, lo, hi) && lo <= hi + 1
    ensures |q| <= hi - lo + 1
    decreases |q|
  {
    if q != [] { AtMostSpan(q[..|q| - 1], lo, q[|q| - 1].idx - 1); }
  }

  // ---- cards ---------------------------------------------------------------------------------

  /** The cards last seen in bucket x or later. */
  ghost function LiveAt(cards: map<Num, int>, x: int): set<Num> { set c | c in cards && cards[c] >= x }

  /** From every threshold on, the buckets' card counters count the live cards. */
  ghost predicate CardsOk(q: seq<Bucket>, cards: map<Num, int>, lo: int) {
    forall x :: x >= lo ==> LastQ(q, x) == |LiveAt(cards, x)|
  }

  /** The live cards are exactly those of the events. */
  ghost predicate CardsExact(cards: map<Num, int>, evs: seq<Event>, width: int, lo: int) {
    forall x :: x >= lo ==> LiveAt(cards, x) == CardsAfter(evs, Edge(width, x))
  }

  function Bumped(q: seq<Bucket>, i: nat, d: int): seq<Bucket>
    requires i < |q|
  {
    q[i := q[i].(lastCards := q[i].lastCards + d)]
  }

  lemma {:induction false} BumpedTotals(q: seq<Bucket>, i: nat, d: int, x: int)
    requires i < |q|
    ensures CountQ(Bumped(q, i, d), x) == CountQ(q, x) && SumQ(Bumped(q, i, d), x) == SumQ(q, x)
    ensures LastQ(Bumped(q, i, d), x) == LastQ(q, x) + (if q[i].idx >= x then d else 0)
    decreases |q|
  {
    var r := Bumped(q, i, d);
    if i < |q| - 1 {
      BumpedTotals(q[..|q| - 1], i, d, x);
      assert r[..|r| - 1] == Bumped(q[..|q| - 1], i, d);
    } else {
      assert r[..|r| - 1] == q[..|q| - 1];
    }
  }

  lemma {:induction false} NoBucketNoCards(q: seq<Bucket>, x: int)
    requires forall i :: 0 <= i < |q| ==> q[i].idx != x
    ensures LastQ(q, x) == LastQ(q, x + 1)
    decreases |q|
  {
    if q != [] { NoBucketNoCards(q[..|q| - 1], x); }
  }

  lemma LiveDrops(cards: map<Num, int>, c: Num)
    requires c in cards
    ensures |LiveAt(cards, cards[c] + 1)| < |LiveAt(cards, cards[c])|
  {
    var x := cards[c];
    var gone := LiveAt(cards, x) - LiveAt(cards, x + 1);
    assert c in gone && LiveAt(cards, x) == LiveAt(cards, x + 1) + gone;
  }

  /** A live card's bucket is in the queue. */
  lemma LiveHasBucket(q: seq<Bucket>, cards: map<Num, int>, lo: int, c: Num)
    requires CardsOk(q, cards, lo) && c in cards && cards[c] >= lo
    ensures exists i :: 0 <= i < |q| && q[i].idx == cards[c]
  {
    LiveDrops(cards, c);
    var x := cards[c];
    assert LastQ(q, x) == |LiveAt(cards, x)| && LastQ(q, x + 1) == |LiveAt(cards, x + 1)|;
    hide LastQ, LiveAt;
    if forall i :: 0 <= i < |q| ==> q[i].idx != x { NoBucketNoCards(q, x); }
  }

  lemma LiveMore(cards: map<Num, int>, c: Num, at: int, x: int)
    requires c in cards ==> cards[c] <= at
    ensures LiveAt(cards[c := at], x) == LiveAt(cards, x) + (if at >= x then {c} else {})
  {}

  /** A card seen again moves to the newest bucket. */
  lemma MovesCard(q: seq<Bucket>, cards: map<Num, int>, lo: int, hi: int, c: Num, i: nat)
    requires Within(q, lo, hi) && q != [] && CardsOk(q, cards, lo) && c in cards && i < |q| && q[i].idx == cards[c]
    ensures var last := |q| - 1;
            CardsOk(Bumped(Bumped(q, i, -1), last, 1), cards[c := q[last].idx], lo)
  {
    hide LastQ;
    var last := |q| - 1;
    var r := Bumped(Bumped(q, i, -1), last, 1);
    forall x | x >= lo ensures LastQ(r, x) == |LiveAt(cards[c := q[last].idx], x)| {
      BumpedTotals(q, i, -1, x);
      BumpedTotals(Bumped(q, i, -1), last, 1, x);
      LiveMore(cards, c, q[last].idx, x);
      assert c in LiveAt(cards, x) <==> q[i].idx >= x;
      assert Bumped(q, i, -1)[last].idx == q[last].idx;
      if c in LiveAt(cards, x) { assert LiveAt(cards, x) + {c} == LiveAt(cards, x); }
    }
  }

  /** A card not live joins the newest bucket. */
  lemma JoinsCard(q: seq<Bucket>, cards: map<Num, int>, lo: int, hi: int, c: Num)
    requires Within(q, lo, hi) && q != [] && CardsOk(q, cards, lo) && (c in cards ==> cards[c] < lo)
    ensures var last := |q| - 1;
            CardsOk(Bumped(q, last, 1), cards[c := q[last].idx], lo)
  {
    hide LastQ;
    var last := |q| - 1;
    forall x | x >= lo ensures LastQ(Bumped(q, last, 1), x) == |LiveAt(cards[c := q[last].idx], x)| {
      BumpedTotals(q, last, 1, x);
      LiveMore(cards, c, q[last].idx, x);
      assert c !in LiveAt(cards, x);
    }
  }

  /** Forgetting the cards that are not live changes nothing that is counted. */
  lemma SweepKeeps(q: seq<Bucket>, cards: map<Num, int>, lo: int, left: map<Num, int>)
    requires q != [] && Up(q) && q[0].idx >= lo && CardsOk(q, cards, lo)
    requires left == map c | c in cards && cards[c] >= q[0].idx :: cards[c]
    ensures CardsOk(q, left, lo) && forall x :: x >= lo ==> LiveAt(left, x) == LiveAt(cards, x)
  {
    hide LastQ;
    forall x | x >= lo ensures LiveAt(left, x) == LiveAt(cards, x) {
      forall c | c in LiveAt(cards, x) ensures c in left { LiveHasBucket(q, cards, lo, c); }
    }
  }

  lemma LiveIsAll(cards: map<Num, int>, x: int)
    requires forall c :: c in cards ==> cards[c] >= x
    ensures |LiveAt(cards, x)| == |cards|
  {
    assert LiveAt(cards, x) == cards.Keys;
  }

  lemma ExactMore(cards: map<Num, int>, more: map<Num, int>, evs: seq<Event>, width: int, lo: int, e: Event)
    requires width > 0 && CardsExact(cards, evs, width, lo) && !e.card.NaN?
    requires forall x :: x >= lo ==>
              LiveAt(more, x) == LiveAt(cards, x) + (if FloorDiv(e.time, width) >= x then {e.card} else {})
    ensures CardsExact(more, evs + [e], width, lo)
  {
    hide CardsAfter, LiveAt, Edge;
    forall x | x >= lo ensures LiveAt(more, x) == CardsAfter(evs + [e], Edge(width, x)) {
      AfterSnoc(evs, e, Edge(width, x));
      EdgeMeans(e.time, width, x);
    }
  }

  lemma ExactSame(cards: map<Num, int>, evs: seq<Event>, width: int, lo: int, e: Event)
    requires CardsExact(cards, evs, width, lo) && e.card.NaN?
    ensures CardsExact(cards, evs + [e], width, lo)
  {
    hide CardsAfter, LiveAt, Edge;
    forall x | x >= lo ensures LiveAt(cards, x) == CardsAfter(evs + [e], Edge(width, x)) {
      AfterSnoc(evs, e, Edge(width, x));
    }
  }
}
