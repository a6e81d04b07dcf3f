/** The bucketed velocity state of one key: bounded memory whatever its traffic
(internal/features/bucketed.go). */
module Bucketed {
  import opened Numbers
  import opened Domain
  import opened Windows
  import opened BucketSpec

  /** One window's buckets and totals at a time last, for the events recorded. */
  ghost predicate WindowOk(p: Plan, w: nat, q: seq<Bucket>, count: int, milli: int, evs: seq<Event>, last: int)
    requires p.Valid() && w < NUM_WINDOWS
  {
    var width, lo := p.width[w], p.Oldest(w, last);
    && Within(q, lo, FloorDiv(last, width)) && Tallies(q, evs, width, lo)
    && count == CountQ(q, lo) && milli == SumQ(q, lo)
  }

  /** The card counters of the distinct window. */
  ghost predicate DistinctOk(p: Plan, q: seq<Bucket>, cards: map<Num, int>, distinct: int, exact: bool, evs: seq<Event>,
      last: int)
    requires p.Valid()
  {
    var width, lo := p.width[DISTINCT_WINDOW], p.Oldest(DISTINCT_WINDOW, last);
    && CardsOk(q, cards, lo) && distinct == LastQ(q, lo) && distinct <= p.cap && |cards| <= 2 * p.cap + 64
    && (exact ==> CardsExact(cards, evs, width, lo))
  }

  /** Subtracts, on copies, the buckets that have left the window by lo. */
  method Walk(q: seq<Bucket>, count: int, milli: int, distinct: int, cards: bool, lo: int, ghost from: int)
    returns (c: int, m: int, d: int)
    requires Up(q) && (forall i :: 0 <= i < |q| ==> q[i].idx >= from)
    requires count == CountQ(q, from) && milli == SumQ(q, from) && (cards ==> distinct == LastQ(q, from))
    ensures c == CountQ(q, Max(lo, from)) && m == SumQ(q, Max(lo, from)) && (cards ==> d == LastQ(q, Max(lo, from)))
  {
    hide CountQ, SumQ, LastQ;
    c, m, d := count, milli, distinct;
    ghost var left := q;
    assert q[0..] == q;
    var i := 0;
    while i < |q| && q[i].idx < lo
      invariant 0 <= i <= |q| && left == q[i..]
      invariant c == CountQ(left, from) && m == SumQ(left, from) && (cards ==> d == LastQ(left, from))
      invariant CountQ(left, Max(lo, from)) == CountQ(q, Max(lo, from))
      invariant SumQ(left, Max(lo, from)) == SumQ(q, Max(lo, from))
      invariant LastQ(left, Max(lo, from)) == LastQ(q, Max(lo, from))
    {
      DropFront(left, from);
      DropFront(left, Max(lo, from));
      c, m := c - q[i].count, m - q[i].milli;
      if cards { d := d - q[i].lastCards; }
      i := i + 1;
      left := left[1..];
    }
    AllFrom(left, Max(lo, from), from);
  }

  /** Drops the buckets that have left the window by lo. */
  method Expire(q0: seq<Bucket>, count: int, milli: int, distinct: int, cards: bool, lo: int, ghost from: int)
    returns (q: seq<Bucket>, c: int, m: int, d: int)
    requires Up(q0) && (forall i :: 0 <= i < |q0| ==> q0[i].idx >= from) && from <= lo
    requires count == CountQ(q0, from) && milli == SumQ(q0, from) && (cards ==> distinct == LastQ(q0, from))
    ensures Up(q) && (forall i :: 0 <= i < |q| ==> q[i].idx >= lo && q[i] in q0)
    ensures forall x :: x >= lo ==>
              CountQ(q, x) == CountQ(q0, x) && SumQ(q, x) == SumQ(q0, x) && LastQ(q, x) == LastQ(q0, x)
    ensures c == CountQ(q, lo) && m == SumQ(q, lo) && (cards ==> d == LastQ(q, lo)) && (!cards ==> d == distinct)
  {
    hide CountQ, SumQ, LastQ;
    q, c, m, d := q0, count, milli, distinct;
    while q != [] && q[0].idx < lo
      invariant Up(q) && forall i :: 0 <= i < |q| ==> q[i].idx >= from && q[i] in q0
      invariant c == CountQ(q, from) && m == SumQ(q, from) && (cards ==> d == LastQ(q, from))
      invariant (!cards ==> d == distinct)
      invariant forall x :: x >= lo ==>
                CountQ(q, x) == CountQ(q0, x) && SumQ(q, x) == SumQ(q0, x) && LastQ(q, x) == LastQ(q0, x)
      decreases |q|
    {
      DropFront(q, from);
      forall x | x >= lo
        ensures CountQ(q[1..], x) == CountQ(q, x) && SumQ(q[1..], x) == SumQ(q, x) && LastQ(q[1..], x) == LastQ(q, x)
      {
        DropFront(q, x);
      }
      c, m := c - q[0].count, m - q[0].milli;
      if cards { d := d - q[0].lastCards; }
      q := q[1..];
    }
    AllFrom(q, lo, from);
  }

  /** The bucket with an index that is in the queue, by binary search. */
  method Find(q: seq<Bucket>, idx: int) returns (i: nat)
    requires Up(q) && exists k :: 0 <= k < |q| && q[k].idx == idx
    ensures i < |q| && q[i].idx == idx
  {
    var lo, hi := 0, |q|;
    while lo < hi
      invariant 0 <= lo <= hi <= |q|
      invariant forall k :: 0 <= k < lo ==> q[k].idx < idx
      invariant forall k :: hi <= k < |q| ==> q[k].idx >= idx
    {
      var mid := (lo + hi) / 2;
      if q[mid].idx >= idx { hi := mid; } else { lo := mid + 1; }
    }
    i := lo;
  }

  /** Counts a card in the newest bucket, unless the cap is reached; full says it was. */
  method AddCard(p: Plan, q0: seq<Bucket>, cards0: map<Num, int>, distinct: int, card: Num, ghost lo: int,
      ghost hi: int)
    returns (q: seq<Bucket>, cards: map<Num, int>, d: int, full: bool)
    requires p.Valid() && Within(q0, lo, hi) && q0 != [] && q0[|q0| - 1].idx == hi
    requires CardsOk(q0, cards0, lo) && distinct == LastQ(q0, lo) <= p.cap && |cards0| <= 2 * p.cap + 64
    ensures Within(q, lo, hi) && CardsOk(q, cards, lo) && d == LastQ(q, lo) <= p.cap && |cards| <= 2 * p.cap + 64
    ensures forall x :: CountQ(q, x) == CountQ(q0, x) && SumQ(q, x) == SumQ(q0, x)
    ensures !full ==> forall x :: x >= lo ==> LiveAt(cards, x) == LiveAt(cards0, x) + (if hi >= x then {card} else {})
  {
    hide CountQ, SumQ, LastQ, CardsOk;
    q, cards, d, full := q0, cards0, distinct, false;
    var last := |q0| - 1;
    NotLive(q0, cards0, lo, card);
    if card in cards && cards[card] >= q0[0].idx {
      var old_ := cards[card];
      LiveHasBucket(q0, cards0, lo, card);
      if old_ != q0[last].idx {
        var i := Find(q0, old_);
        MovesCard(q0, cards0, lo, hi, card, i);
        q, cards := Bumped(Bumped(q0, i, -1), last, 1), cards[card := q0[last].idx];
        BumpedTwice(q0, i, last);
      }
    } else if distinct < p.cap {
      JoinsCard(q0, cards0, lo, hi, card);
      q, cards, d := Bumped(q0, last, 1), cards[card := q0[last].idx], distinct + 1;
      forall x
        ensures CountQ(q, x) == CountQ(q0, x) && SumQ(q, x) == SumQ(q0, x)
        ensures LastQ(q, x) == LastQ(q0, x) + (if hi >= x then 1 else 0) {
        BumpedTotals(q0, last, 1, x);
      }
    } else {
      full := true;
    }
    forall x | !full && x >= lo ensures LiveAt(cards, x) == LiveAt(cards0, x) + (if hi >= x then {card} else {}) {
      LiveMore(cards0, card, hi, x);
    }
    if |cards| > 2 * d + 64 {
      var left := map c | c in cards && cards[c] >= q[0].idx :: cards[c];
      SweepKeeps(q, cards, lo, left);
      AllFrom(q, lo, q[0].idx);
      LiveIsAll(left, q[0].idx);
      SizeIs(q, left, lo, q[0].idx);
      cards := left;
    }
  }

  lemma SizeIs(q: seq<Bucket>, cards: map<Num, int>, lo: int, x: int)
    requires CardsOk(q, cards, lo) && x >= lo
    ensures LastQ(q, x) == |LiveAt(cards, x)|
  {}

  /** A card the map has before the front bucket is not in the window. */
  lemma NotLive(q: seq<Bucket>, cards: map<Num, int>, lo: int, c: Num)
    requires CardsOk(q, cards, lo) && q != [] && Up(q)
    ensures c in cards && cards[c] < q[0].idx ==> cards[c] < lo
  {
    hide LastQ, CardsOk;
    if c in cards && cards[c] >= lo { LiveHasBucket(q, cards, lo, c); }
  }

  lemma BumpedTwice(q: seq<Bucket>, i: nat, j: nat)
    requires i < |q| && j < |q|
    ensures var r := Bumped(Bumped(q, i, -1), j, 1);
            && |r| == |q| && (forall k :: 0 <= k < |q| ==> r[k].idx == q[k].idx)
            && forall x :: CountQ(r, x) == CountQ(q, x) && SumQ(r, x) == SumQ(q, x)
                 && LastQ(r, x) == LastQ(q, x) - (if q[i].idx >= x then 1 else 0) + (if q[j].idx >= x then 1 else 0)
  {
    hide CountQ, SumQ, LastQ;
    var r := Bumped(Bumped(q, i, -1), j, 1);
    forall x
      ensures CountQ(r, x) == CountQ(q, x) && SumQ(r, x) == SumQ(q, x)
      ensures LastQ(r, x) == LastQ(q, x) - (if q[i].idx >= x then 1 else 0) + (if q[j].idx >= x then 1 else 0)
    {
      BumpedTotals(q, i, -1, x);
      BumpedTotals(Bumped(q, i, -1), j, 1, x);
    }
  }

  // ---- one window and the cards ---------------------------------------------------------------

  /** Expires a window at an event's time and adds the event to it. */
  method AddWindow(p: Plan, w: nat, q0: seq<Bucket>, count: int, milli: int, distinct: int, ghost evs: seq<Event>,
      ghost last: int, started: bool, e: Event)
    returns (q: seq<Bucket>, c: int, m: int, d: int)
    requires p.Valid() && w < NUM_WINDOWS
    requires if started then last <= e.time && WindowOk(p, w, q0, count, milli, evs, last)
             else q0 == [] && count == milli == 0 && evs == []
    requires w == DISTINCT_WINDOW ==> distinct == if started then LastQ(q0, p.Oldest(w, last)) else 0
    ensures WindowOk(p, w, q, c, m, evs + [e], e.time) && q != [] && q[|q| - 1].idx == FloorDiv(e.time, p.width[w])
    ensures forall x :: x >= p.Oldest(w, e.time) ==> LastQ(q, x) == LastQ(q0, x)
    ensures w == DISTINCT_WINDOW ==> d == LastQ(q, p.Oldest(w, e.time))
  {
    hide CountQ, SumQ, LastQ, CountAfter, SumAfter, Edge;
    var width, lo := p.width[w], p.Oldest(w, e.time);
    var idx := FloorDiv(e.time, width);
    ghost var from := if started then p.Oldest(w, last) else lo;
    if started {
      OldestMonotone(p, w, e.time, last);
      DivMonotone(last, e.time, width);
    } else {
      EmptyQueue(lo, width);
    }
    OldestBefore(p, w, e.time);
    q, c, m, d := Expire(q0, count, milli, distinct, w == DISTINCT_WINDOW, lo, from);
    assert Within(q, lo, idx) && Tallies(q, evs, width, lo);
    AddedWithin(q, lo, idx, e.milli);
    AddedTallies(q, evs, width, lo, e);
    forall x ensures LastQ(Added(q, idx, e.milli), x) == LastQ(q, x) { AddedTotals(q, idx, e.milli, x); }
    AddedTotals(q, idx, e.milli, lo);
    q, c, m := Added(q, idx, e.milli), c + 1, m + e.milli;
  }

  lemma EmptyQueue(lo: int, width: int)
    ensures CountQ([], lo) == SumQ([], lo) == LastQ([], lo) == 0 && Tallies([], [], width, lo)
  {}

  lemma OldestBefore(p: Plan, w: nat, now: int)
    requires p.Valid() && w < NUM_WINDOWS
    ensures p.Oldest(w, now) <= FloorDiv(now, p.width[w])
  {}

  lemma SmallerSet(a: set<Num>, b: set<Num>)
    requires a <= b
    ensures |a| <= |b|
  {
    assert b == a + (b - a);
  }

  lemma DistinctExpired(p: Plan, q0: seq<Bucket>, cards: map<Num, int>, distinct: int, exact: bool, evs: seq<Event>,
      last: int, started: bool, q: seq<Bucket>, d: int, now: int)
    requires p.Valid()
    requires if started then last <= now && DistinctOk(p, q0, cards, distinct, exact, evs, last)
             else q0 == [] && cards == map[] && evs == []
    requires forall x :: x >= p.Oldest(1, now) ==> LastQ(q, x) == LastQ(q0, x)
    requires d == LastQ(q, p.Oldest(1, now))
    ensures DistinctOk(p, q, cards, d, exact, evs, now)
  {
    hide LastQ, CardsAfter, Edge;
    var lo := p.Oldest(1, now);
    if started {
      OldestMonotone(p, 1, now, last);
      SmallerSet(LiveAt(cards, lo), LiveAt(cards, p.Oldest(1, last)));
      hide LiveAt;
    } else {
      NoCards(p.width[1], lo);
      forall x | x >= lo ensures LastQ(q, x) == |LiveAt(cards, x)| { NoCards(p.width[1], x); }
    }
  }

  lemma NoCards(width: int, x: int)
    ensures LiveAt(map[], x) == {} && LastQ([], x) == 0 && forall y :: CardsAfter([], y) == {}
  {}

  /** Adds the new event's card to a window that holds the event. */
  method CardAdded(p: Plan, q0: seq<Bucket>, c: int, m: int, cards0: map<Num, int>, distinct: int, ghost exact: bool,
      ghost evs: seq<Event>, e: Event)
    returns (q: seq<Bucket>, cards: map<Num, int>, d: int, full: bool)
    requires p.Valid() && !e.card.NaN? && WindowOk(p, 1, q0, c, m, evs + [e], e.time)
    requires q0 != [] && q0[|q0| - 1].idx == FloorDiv(e.time, p.width[1])
    requires DistinctOk(p, q0, cards0, distinct, exact, evs, e.time)
    ensures WindowOk(p, 1, q, c, m, evs + [e], e.time)
    ensures DistinctOk(p, q, cards, d, exact && !full, evs + [e], e.time)
  {
    hide CountQ, SumQ, LastQ, CountAfter, SumAfter, CardsAfter, Edge, LiveAt;
    ghost var lo := p.Oldest(1, e.time);
    q, cards, d, full := AddCard(p, q0, cards0, distinct, e.card, lo, FloorDiv(e.time, p.width[1]));
    if exact && !full { ExactMore(cards0, cards, evs, p.width[1], lo, e); }
  }

  lemma CardlessAdded(p: Plan, q: seq<Bucket>, cards: map<Num, int>, distinct: int, exact: bool, evs: seq<Event>,
      e: Event)
    requires p.Valid() && DistinctOk(p, q, cards, distinct, exact, evs, e.time) && (exact ==> e.card.NaN?)
    ensures DistinctOk(p, q, cards, distinct, exact, evs + [e], e.time)
  {
    hide LastQ, CardsAfter, Edge, LiveAt;
    if exact { ExactSame(cards, evs, p.width[1], p.Oldest(1, e.time), e); }
  }

  lemma DistinctRead(p: Plan, q: seq<Bucket>, cards: map<Num, int>, distinct: int, exact: bool, evs: seq<Event>,
      last: int, now: int)
    requires p.Valid() && DistinctOk(p, q, cards, distinct, exact, evs, last)
    ensures LastQ(q, p.Oldest(1, Max(now, last))) <= p.cap
    ensures exact ==>
              LastQ(q, p.Oldest(1, Max(now, last))) == |CardsAfter(evs, Edge(p.width[1], p.Oldest(1, Max(now, last))))|
  {
    OldestMonotone(p, 1, now, last);
    var x := p.Oldest(1, Max(now, last));
    SmallerSet(LiveAt(cards, x), LiveAt(cards, p.Oldest(1, last)));
    hide LastQ, CardsAfter, Edge, LiveAt;
  }

  /** The windows and card counters of an entry without events. */
  predicate IsNew(win: seq<seq<Bucket>>, count: seq<int>, milli: seq<int>, cards: map<Num, int>, distinct: int) {
    win == [[], [], []] && count == milli == [0, 0, 0] && cards == map[] && distinct == 0
  }

  /** The windows of an entry with events and its card counters. */
  ghost predicate EntryOk(p: Plan, win: seq<seq<Bucket>>, count: seq<int>, milli: seq<int>, cards: map<Num, int>,
      distinct: int, exact: bool, evs: seq<Event>, last: int)
  {
    && p.Valid() && |win| == |count| == |milli| == NUM_WINDOWS
    && WindowOk(p, 0, win[0], count[0], milli[0], evs, last)
    && WindowOk(p, 1, win[1], count[1], milli[1], evs, last)
    && WindowOk(p, 2, win[2], count[2], milli[2], evs, last)
    && DistinctOk(p, win[1], cards, distinct, exact, evs, last)
  }

  /** Adds an event, at its recorded time, to every window and its card to the counters. */
  method AddEverywhere(p: Plan, tracks: bool, win0: seq<seq<Bucket>>, count0: seq<int>, milli0: seq<int>,
      cards0: map<Num, int>, distinct0: int, ghost exact: bool, ghost evs: seq<Event>, ghost last: int, started: bool,
      e: Event)
    returns (win: seq<seq<Bucket>>, count: seq<int>, milli: seq<int>, cards: map<Num, int>, distinct: int, full: bool)
    requires p.Valid() && |win0| == |count0| == |milli0| == NUM_WINDOWS
    requires started ==> last <= e.time
    requires
      if started then EntryOk(p, win0, count0, milli0, cards0, distinct0, exact && tracks, evs, last)
      else IsNew(win0, count0, milli0, cards0, distinct0) && evs == []
    ensures |win| == |count| == |milli| == NUM_WINDOWS
    ensures EntryOk(p, win, count, milli, cards, distinct, exact && !full && tracks, evs + [e], e.time)
  {
    hide WindowOk, CountQ, SumQ, LastQ, CountAfter, SumAfter, CardsAfter, Edge, LiveAt;
    var q0, c0, m0, _ := AddWindow(p, 0, win0[0], count0[0], milli0[0], distinct0, evs, last, started, e);
    var q1, c1, m1, d := AddWindow(p, 1, win0[1], count0[1], milli0[1], distinct0, evs, last, started, e);
    var q2, c2, m2, _ := AddWindow(p, 2, win0[2], count0[2], milli0[2], distinct0, evs, last, started, e);
    DistinctExpired(p, win0[1], cards0, distinct0, exact && tracks, evs, last, started, q1, d, e.time);
    hide DistinctOk;
    cards, distinct, full := cards0, d, false;
    if tracks && !e.card.NaN? {
      q1, cards, distinct, full := CardAdded(p, q1, c1, m1, cards, d, exact, evs, e);
    } else {
      CardlessAdded(p, q1, cards, d, exact && tracks, evs, e);
    }
    win, count, milli := [q0, q1, q2], [c0, c1, c2], [m0, m1, m2];
  }

  // ---- the entry -------------------------------------------------------------------------------

  class BucketEntry {
    const plan: Plan
    const tracks: bool
    var win: seq<seq<Bucket>>
    var count: seq<int>
    var milli: seq<int>
    var cards: map<Num, int>
    var distinct: int
    var first: int
    var last: int
    var started: bool
    ghost var events: seq<Event> // recorded, at the times they were recorded at
    ghost var exact: bool        // the cap has turned no card away

    ghost predicate Valid()
      reads this
    {
      && plan.Valid() && |win| == |count| == |milli| == NUM_WINDOWS
      && if started
         then EntryOk(plan, win, count, milli, cards, distinct, exact && tracks, events, last)
         else IsNew(win, count, milli, cards, distinct) && events == [] && exact
    }

    constructor (plan: Plan, tracks: bool)
      requires plan.Valid()
      ensures Valid() && !started && this.plan == plan && this.tracks == tracks
    {
      this.plan, this.tracks := plan, tracks;
      win, count, milli, cards, distinct := [[], [], []], [0, 0, 0], [0, 0, 0], map[], 0;
      first, last, started, events, exact := 0, 0, false, [], true;
    }

    /** For each window the events from its oldest bucket on, and the distinct cards of the day's, exactly
    unless the cap has turned one away; the state is not touched. */
    method Read(now: int) returns (a: Aggregates)
      requires Valid() && started
      ensures a.seen && a.first == first && a.last == last
      ensures forall w: nat :: w < NUM_WINDOWS ==> Covers(plan, w, events, Max(now, last), a.count.At(w), a.milli.At(w))
      ensures a.distinct.Some? == tracks && (tracks ==> a.distinct.value <= plan.cap)
      ensures tracks && exact ==>
                a.distinct.value == |CardsAfter(events, Edge(plan.width[1], plan.Oldest(1, Max(now, last))))|
    {
      hide WindowOk, DistinctOk, Covers, CountQ, SumQ, LastQ;
      var c0, m0, _ := ReadWindow(0, now);
      var c1, m1, d := ReadWindow(1, now);
      var c2, m2, _ := ReadWindow(2, now);
      DistinctRead(plan, win[1], cards, distinct, exact && tracks, events, last, now);
      a := Aggregates(PerWindow(c0, c1, c2), PerWindow(m0, m1, m2), if tracks then Some(d)
        else None, true, first, last);
    }

    method ReadWindow(w: nat, now: int) returns (c: int, m: int, d: int)
      requires Valid() && started && w < NUM_WINDOWS
      ensures Covers(plan, w, events, Max(now, last), c, m)
      ensures w == DISTINCT_WINDOW ==> d == LastQ(win[1], plan.Oldest(1, Max(now, last)))
    {
      hide CountQ, SumQ, LastQ, CountAfter, SumAfter, CardsAfter, Edge;
      var lo := plan.Oldest(w, now);
      ghost var from := plan.Oldest(w, last);
      OldestMonotone(plan, w, now, last);
      assert WindowOk(plan, w, win[w], count[w], milli[w], events, last);
      c, m, d := Walk(win[w], count[w], milli[w], distinct, w == DISTINCT_WINDOW, lo, from);
    }

    /** Appends the event to the history this stands for, its time raised to the last one if need be. */
    method Add(ev: Event)
      requires Valid()
      modifies this
      ensures Valid() && started
      ensures last == (if old(started) then Max(ev.time, old(last)) else ev.time)
      ensures first == (if old(started) then old(first) else ev.time)
      ensures events == old(events) + [ev.(time := last)]
    {
      hide EntryOk;
      var t := if started && ev.time < last then last else ev.time;
      var e := ev.(time := t);
      var full;
      win, count, milli, cards, distinct, full :=
        AddEverywhere(plan, tracks, win, count, milli, cards, distinct, exact, events, last, started, e);
      events, exact := events + [e], exact && !full;
      if !started { first, started := t, true; }
      last := t;
    }
  }

  /** What a window reports: the number and sum of the events from its oldest bucket at now on. */
  ghost predicate Covers(p: Plan, w: nat, evs: seq<Event>, now: int, count: int, milli: int)
    requires p.Valid() && w < NUM_WINDOWS
  {
    var edge := Edge(p.width[w], p.Oldest(w, now));
    count == CountAfter(evs, edge) && milli == SumAfter(evs, edge)
  }

  lemma OldestMonotone(p: Plan, w: nat, now: int, last: int)
    requires p.Valid() && w < NUM_WINDOWS
    ensures p.Oldest(w, Max(now, last)) == Max(p.Oldest(w, now), p.Oldest(w, last))
  {
    if now <= last { DivMonotone(now, last, p.width[w]); } else { DivMonotone(last, now, p.width[w]); }
  }

  lemma DivMonotone(a: int, b: int, width: int)
    requires width > 0 && a <= b
    ensures FloorDiv(a, width) <= FloorDiv(b, width)
  {
    EdgeMeans(b, width, FloorDiv(a, width));
    EdgeMeans(a, width, FloorDiv(a, width));
  }

  // ---- against the exact window ----------------------------------------------------------------

  /** Against the exact window a bucketed one never undercounts, and counts nothing a bucket's width or
  more too old. */
  lemma NeverUndercounts(p: Plan, w: nat, evs: seq<Event>, now: int, count: int, milli: int)
    requires p.Valid() && w < NUM_WINDOWS && Covers(p, w, evs, now, count, milli)
    ensures CountAfter(evs, now - Seconds(w)) <= count <= CountAfter(evs, now - Seconds(w) - p.width[w])
  {
    hide CountAfter, SumAfter;
    OldestEdge(p, w, now);
    var edge := Edge(p.width[w], p.Oldest(w, now));
    LaterCutoff(evs, edge, now - Seconds(w));
    LaterCutoff(evs, now - Seconds(w) - p.width[w], edge);
  }

  /** Every event it counts too many lies in the window's single oldest bucket. */
  lemma ExtraIsOldest(p: Plan, w: nat, now: int, e: Event)
    requires p.Valid() && w < NUM_WINDOWS
    requires Edge(p.width[w], p.Oldest(w, now)) < e.time <= now - Seconds(w)
    ensures FloorDiv(e.time, p.width[w]) == p.Oldest(w, now) && e.time > now - Seconds(w) - p.width[w]
  {
    var width, lo := p.width[w], p.Oldest(w, now);
    OldestEdge(p, w, now);
    EdgeMeans(e.time, width, lo);
    EdgeMeans(e.time, width, lo + 1);
    assert (lo + 1) * width == lo * width + width;
  }

  /** A window never holds more buckets than its span and the one that straddles its edge. */
  lemma AtMostSpanBuckets(p: Plan, w: nat, q: seq<Bucket>, count: int, milli: int, evs: seq<Event>, last: int)
    requires p.Valid() && w < NUM_WINDOWS && WindowOk(p, w, q, count, milli, evs, last)
    ensures |q| <= Seconds(w) / p.width[w] + 1
  {
    OldestBefore(p, w, last);
    AtMostSpan(q, p.Oldest(w, last), FloorDiv(last, p.width[w]));
  }
}
