/** The exact velocity state of one key (internal/features/exact.go). */
module Exact {
  import opened Numbers
  import opened Domain
  import opened Windows
  import opened ExactSpec

  /** The entry of one key. Its deque is the sequence ev; Deques.Deque shows how a ring buffer
  keeps one. */
  class ExactEntry {
    ghost const key: Key // whose entry it is
    const tracks: bool
    var ev: seq<Event>
    var base: int      // sequence number of ev's first event
    var sums: Totals   // per window its oldest event and running totals; the cards
    var first: int
    var last: int
    var started: bool

    ghost predicate Valid()
      reads this
    {
      Consistent(started, ev, last, base, sums, tracks)
    }

    /** What the entry stands for: its first and latest times and the events of the last week. */
    function Value(): History
      reads this
    {
      History(first, last, ev)
    }

    constructor (ghost k: Key, tracksDistinct: bool)
      ensures Valid() && !started && key == k && tracks == tracksDistinct
    {
      key, tracks := k, tracksDistinct;
      ev, base, sums := [], 0, Totals([0, 0, 0], [0, 0, 0], [0, 0, 0], map[], 0);
      first, last, started := 0, 0, false;
    }

    /** The features of the key at now; the state is not touched. */
    method Read(now: int) returns (a: Aggregates)
      requires Valid() && started
      ensures a == View(Value(), tracks, now)
    {
      var c0, m0, _, k0 := Walk(ev, base, sums, 0, tracks, now, last);
      var c1, m1, d, k1 := Walk(ev, base, sums, 1, tracks, now, last);
      var c2, m2, _, k2 := Walk(ev, base, sums, 2, tracks, now, last);
      a := Aggregates(PerWindow(c0, c1, c2), PerWindow(m0, m1, m2), if tracks then Some(d)
        else None, true, first, last);
      MeasureFromSplits(ev, tracks, first, last, now, k0, k1, k2);
    }

    /** Appends the event to the history this stands for, its time raised to the last one if need be. */
    method Add(e: Event)
      requires Valid()
      modifies this
      ensures Valid() && started
      ensures Value() == if old(started) then Record(old(Value()), e) else Start(e)
    {
      hide Record, Start, Pushed;
      var t := if started && e.time < last then last else e.time;
      var evs, b, s := Expire(started, ev, base, sums, tracks, t, last);
      AddedIsConsistent(started, evs, b, s, tracks, Value(), e, t);
      evs, s := Push(evs, b, s, tracks, e.(time := t));
      ev, base, sums, last := evs, b, s, t;
      if !started {
        first, started := t, true;
      }
    }

    /** An image of the history that Decode reads back. */
    method Encode() returns (img: Image)
      requires Valid() && started
      ensures Encodes(img, Value(), tracks)
    {
      hide Totals.Describe, Totals.At, Ascending;
      var items := [];
      var prev := first;
      for i := 0 to |ev|
        invariant prev == TimeBefore(ev, first, i) && |items| == i
        invariant forall j :: 0 <= j < i ==>
                  items[j] == Item(ev[j].time - TimeBefore(ev, first, j), ev[j].milli, ev[j].card)
      {
        items := items + [Item(ev[i].time - prev, ev[i].milli, ev[i].card)];
        prev := ev[i].time;
      }
      StartsOf(sums, ev, base, last, tracks);
      img := Image(first, last, items, [sums.start[0] - base, sums.start[1] - base, sums.start[2] - base]);
      assert ImageOf(img, Value(), base, sums, tracks);
    }

    /** Fills a new entry from an image; false is the error for one that fits no entry. An image of a
    history gives an entry that stands for it. */
    method Decode(img: Image, ghost h: History) returns (ok: bool)
      requires Valid() && !started
      modifies this
      ensures ok == StartsFit(img)
      ensures Encodes(img, h, tracks) ==> ok && Valid() && started && Value() == h
    {
      hide Consistent, Totals.Describe, Lists;
      ok := StartsFit(img);
      if ok {
        ev := Unlist(img.items, img.first, h.recent);
        base, first, last, started := 0, img.first, img.last, true;
        sums := Rebuild(ev, img.starts, tracks);
      }
      if Encodes(img, h, tracks) {
        ghost var b, t :| ImageOf(img, h, b, t, tracks);
        EncodedStartsFit(img, h, b, t, tracks);
        RebuiltIsConsistent(img, h, b, t, tracks, sums);
      }
    }
  }

  // ---- snapshots -----------------------------------------------------------------------

  /** One event of a snapshot: its time after the one before, its amount and its card. */
  datatype Item = Item(delta: int, milli: int, card: Num)

  /** What a snapshot keeps of an entry: totals and cards are derived and are rebuilt. */
  datatype Image = Image(first: int, last: int, items: seq<Item>, starts: seq<int>)

  function TimeBefore(evs: seq<Event>, first: int, i: nat): int
    requires i <= |evs|
  {
    if i == 0 then first else evs[i - 1].time
  }

  predicate Lists(items: seq<Item>, evs: seq<Event>, first: int) {
    |items| == |evs| && forall i :: 0 <= i < |evs| ==>
      items[i] == Item(evs[i].time - TimeBefore(evs, first, i), evs[i].milli, evs[i].card)
  }

  /** The image is of totals that describe this history. */
  predicate ImageOf(img: Image, h: History, base: int, t: Totals, tracks: bool) {
    && Consistent(true, h.recent, h.last, base, t, tracks)
    && img.first == h.first && img.last == h.last && Lists(img.items, h.recent, h.first)
    && |img.starts| == NUM_WINDOWS && forall w :: 0 <= w < NUM_WINDOWS ==> img.starts[w] == t.start[w] - base
  }

  ghost predicate Encodes(img: Image, h: History, tracks: bool) {
    exists base, t :: ImageOf(img, h, base, t, tracks)
  }

  /** Window starts inside the events, the longer windows' no later, and the longest at the front. */
  predicate StartsFit(img: Image) {
    && |img.starts| == NUM_WINDOWS
    && (forall w :: 0 <= w < NUM_WINDOWS ==> 0 <= img.starts[w] <= |img.items|)
    && (forall w :: 0 < w < NUM_WINDOWS ==> img.starts[w] <= img.starts[w - 1])
    && img.starts[WEEK] == 0
  }

  lemma EncodedStartsFit(img: Image, h: History, base: int, t: Totals, tracks: bool)
    requires ImageOf(img, h, base, t, tracks)
    ensures StartsFit(img)
  {
    hide SplitAt, Ascending, Totals.Describe, Lists;
    var evs, now := h.recent, h.last;
    assert |img.items| == |evs| by { LengthOf(img.items, evs, h.first); }
    SplitOf(t, evs, base, now, 0);
    SplitOf(t, evs, base, now, 1);
    SplitOf(t, evs, base, now, 2);
    SplitIn(evs, t.start[0] - base, now - Seconds(0));
    SplitIn(evs, t.start[1] - base, now - Seconds(1));
    SplitIn(evs, t.start[2] - base, now - Seconds(2));
    SplitOrder(evs, t.start[1] - base, t.start[0] - base, now - Seconds(1), now - Seconds(0));
    SplitOrder(evs, t.start[2] - base, t.start[1] - base, now - Seconds(2), now - Seconds(1));
  }

  lemma LengthOf(items: seq<Item>, evs: seq<Event>, first: int)
    requires Lists(items, evs, first)
    ensures |items| == |evs|
  {}

  lemma SplitIn(evs: seq<Event>, k: int, cutoff: int)
    requires SplitAt(evs, k, cutoff)
    ensures 0 <= k <= |evs|
  {}

  const EMPTY := Totals([0, 0, 0], [0, 0, 0], [0, 0, 0], map[], 0)

  lemma EmptyDescribes(tracks: bool)
    ensures EMPTY.Describe([], 0, tracks)
  {
    Describes(EMPTY, [], 0, tracks);
  }

  /** The events listed by their distances in time. */
  method Unlist(items: seq<Item>, first: int, ghost evs: seq<Event>) returns (out: seq<Event>)
    ensures |out| == |items| && (Lists(items, evs, first) ==> out == evs)
  {
    out := [];
    var prev := first;
    for i := 0 to |items|
      invariant |out| == i && (Lists(items, evs, first) ==> out == evs[..i] && prev == TimeBefore(evs, first, i))
    {
      prev := prev + items[i].delta;
      out := out + [Event(prev, items[i].milli, items[i].card)];
    }
  }

  /** Totals from the listed events alone: each window first holds them all and then gives up what precedes its
  start, so that what is left describes the same history. */
  method Rebuild(evs: seq<Event>, starts: seq<int>, tracks: bool) returns (t: Totals)
    requires |starts| == NUM_WINDOWS && forall w :: 0 <= w < NUM_WINDOWS ==> 0 <= starts[w] <= |evs|
    ensures t.Describe(evs, 0, tracks) && t.start == starts
  {
    hide Totals.DescribeFrom, Pushed;
    t := EMPTY;
    EmptyDescribes(tracks);
    var pushed := [];
    for i := 0 to |evs|
      invariant pushed == evs[..i] && t.Describe(pushed, 0, tracks) && t.start == [0, 0, 0]
    {
      PushedDescribes(t, pushed, 0, tracks, evs[i]);
      PushedStart(t, evs[i], i, tracks);
      pushed, t := Push(pushed, 0, t, tracks, evs[i]);
    }
    assert pushed == evs;
    for w := 0 to NUM_WINDOWS
      invariant t.Describe(evs, 0, tracks) && |t.start| == NUM_WINDOWS
      invariant forall u :: 0 <= u < NUM_WINDOWS ==> t.start[u] == if u < w then starts[u] else 0
    {
      t := DropTo(evs, t, w, starts[w], tracks);
    }
    assert t.start == starts;
  }

  lemma StartsOf(t: Totals, evs: seq<Event>, base: int, last: int, tracks: bool)
    requires Consistent(true, evs, last, base, t, tracks)
    ensures |t.start| == NUM_WINDOWS
  {}

  lemma PushedStart(t: Totals, x: Event, seqNo: int, tracks: bool)
    requires |t.start| == |t.count| == |t.milli| == NUM_WINDOWS
    ensures Pushed(t, x, seqNo, tracks).start == t.start
  {}

  method DropTo(evs: seq<Event>, t: Totals, w: nat, end: int, tracks: bool) returns (r: Totals)
    requires w < NUM_WINDOWS && t.Describe(evs, 0, tracks) && 0 <= t.start[w] <= end <= |evs|
    ensures r.Describe(evs, 0, tracks) && r.start == t.start[w := end]
  {
    hide Totals.DescribeFrom;
    r := t;
    while r.start[w] < end
      invariant r.Describe(evs, 0, tracks) && t.start[w] <= r.start[w] <= end && r.start == t.start[w := r.start[w]]
      decreases end - r.start[w]
    {
      LeftDescribes(r, evs, 0, tracks, w);
      r := Left(r, w, evs[r.start[w]], tracks);
    }
  }

  /** The rebuilt totals, at base 0, are those of the history the image was taken of. */
  lemma RebuiltIsConsistent(img: Image, h: History, base: int, t: Totals, tracks: bool, r: Totals)
    requires ImageOf(img, h, base, t, tracks) && r.Describe(h.recent, 0, tracks) && r.start == img.starts
    ensures Consistent(true, h.recent, h.last, 0, r, tracks)
  {
    hide Totals.Describe, Ascending, SplitAt, Lists;
    forall w: nat | w < NUM_WINDOWS ensures SplitAt(h.recent, r.start[w] - 0, h.last - Seconds(w)) {
      SplitOf(t, h.recent, base, h.last, w);
    }
    SplitsAre(r, h.recent, 0, h.last);
  }

  /** The totals and cards describe the events from each window's start to the back, and every
  window starts where events stop being at or before last - W. */
  predicate Consistent(started: bool, evs: seq<Event>, last: int, base: int, t: Totals, tracks: bool) {
    && Ascending(evs) && t.Describe(evs, base, tracks)
    && if started
       then evs != [] && evs[|evs| - 1].time == last && t.start[WEEK] == base && t.At(evs, base, last)
       else evs == []
  }

  /** Totals that have been expired at now and wait for the event at now. */
  predicate Expired(evs: seq<Event>, base: int, t: Totals, tracks: bool, now: int) {
    && Ascending(evs) && t.Describe(evs, base, tracks)
    && t.start[WEEK] == base && t.At(evs, base, now)
    && (evs != [] ==> evs[|evs| - 1].time <= now)
  }

  lemma AddedIsConsistent(started: bool, evs: seq<Event>, base: int, t: Totals, tracks: bool, h: History, e: Event,
      now: int)
    requires Expired(evs, base, t, tracks, now)
    requires now == if started && e.time < h.last then h.last else e.time
    requires if started then evs == Trim(h.recent, now - WEEK_SECONDS) else evs == []
    ensures Consistent(true, evs + [e.(time := now)], now, base, Pushed(t, e.(time := now), base + |evs|, tracks),
              tracks)
    ensures History(if started then h.first else now, now, evs + [e.(time := now)]) ==
              if started then Record(h, e) else Start(e)
  {
    hide Ascending;
    var x := e.(time := now);
    PushedDescribes(t, evs, base, tracks, x);
    AscendingSnoc(evs, x);
    forall w | 0 <= w < NUM_WINDOWS ensures SplitAt(evs + [x], t.start[w] - base, now - Seconds(w)) {
      SplitOf(t, evs, base, now, w);
    }
    SplitsAre(Pushed(t, x, base + |evs|, tracks), evs + [x], base, now);
  }

  /** Brings every window's totals up to now and trims the front that no window can see any more; a read at now
  answers the same before and after. */
  method Expire(started: bool, evs: seq<Event>, base: int, t: Totals, tracks: bool, now: int, last: int)
      returns (left: seq<Event>, b: int, r: Totals)
    requires Consistent(started, evs, last, base, t, tracks) && (started ==> last <= now)
    ensures Expired(left, b, r, tracks, now)
    ensures if started then left == Trim(evs, now - WEEK_SECONDS) else left == []
  {
    hide SplitAt, Ascending;
    r := ExpireWindows(evs, base, t, tracks, now, last);
    WeekStartsFirst(r, evs, base, now);
    TrimKeepsLast(evs, now - WEEK_SECONDS);
    left, b := evs, base;
    while b < r.start[WEEK]
      invariant Ascending(left) && r.Describe(left, b, tracks) && r.At(left, b, now)
      invariant b <= r.start[WEEK] && Trim(left, now - WEEK_SECONDS) == Trim(evs, now - WEEK_SECONDS)
    {
      TailDescribes(r, left, b, tracks);
      TailAt(r, left, b, now);
      left, b := left[1..], b + 1;
    }
    SplitOf(r, left, b, now, WEEK);
  }

  /** One event more at the end, counted in all three windows and, by its card, as that card's latest. */
  method Push(evs: seq<Event>, base: int, t: Totals, tracks: bool, x: Event) returns (more: seq<Event>, r: Totals)
    requires |t.start| == |t.count| == |t.milli| == NUM_WINDOWS
    ensures more == evs + [x] && r == Pushed(t, x, base + |evs|, tracks)
  {
    var counted := tracks && !x.card.NaN?;
    var count, milli := t.count, t.milli;
    for w := 0 to NUM_WINDOWS
      invariant |count| == |milli| == NUM_WINDOWS
      invariant forall u :: 0 <= u < NUM_WINDOWS ==>
                  && count[u] == t.count[u] + (if u < w then 1 else 0)
                  && milli[u] == t.milli[u] + (if u < w then x.milli else 0)
    {
      count, milli := count[w := count[w] + 1], milli[w := milli[w] + x.milli];
    }
    more := evs + [x];
    r := Totals(t.start, count, milli,
                if counted then t.cards[x.card := base + |evs|] else t.cards,
                if counted && x.card !in t.cards then t.distinct + 1 else t.distinct);
  }

  method ExpireWindows(evs: seq<Event>, base: int, t: Totals, tracks: bool, now: int, ghost last: int)
      returns (r: Totals)
    requires Ascending(evs) && t.Describe(evs, base, tracks)
    requires evs != [] ==> last <= now && t.At(evs, base, last)
    ensures r.Describe(evs, base, tracks) && r.At(evs, base, now)
  {
    hide SplitAt, Ascending;
    r := t;
    for w := 0 to NUM_WINDOWS
      invariant r.Describe(evs, base, tracks)
      invariant forall u :: 0 <= u < w ==> SplitAt(evs, r.start[u] - base, now - Seconds(u))
      invariant forall u :: w <= u < NUM_WINDOWS ==> r.start[u] == t.start[u]
    {
      if evs != [] { SplitOf(t, evs, base, last, w); }
      r := ExpireWindow(evs, base, r, w, tracks, now - Seconds(w), last - Seconds(w));
    }
    SplitsAre(r, evs, base, now);
  }

  lemma WeekStartsFirst(t: Totals, evs: seq<Event>, base: int, now: int)
    requires Ascending(evs) && t.At(evs, base, now)
    ensures base <= t.start[WEEK] <= t.start[0] && t.start[WEEK] <= t.start[1]
  {
    SplitOf(t, evs, base, now, 0);
    SplitOf(t, evs, base, now, 1);
    SplitOf(t, evs, base, now, 2);
    SplitOrder(evs, t.start[2] - base, t.start[1] - base, now - Seconds(2), now - Seconds(1));
    SplitOrder(evs, t.start[2] - base, t.start[0] - base, now - Seconds(2), now - Seconds(0));
  }

  /** Moves window w's start past the events that have left it by cutoff, taking each out of the totals. */
  method ExpireWindow(evs: seq<Event>, base: int, t: Totals, w: nat, tracks: bool, cutoff: int, ghost committed: int)
      returns (r: Totals)
    requires w < NUM_WINDOWS && Ascending(evs) && t.Describe(evs, base, tracks)
    requires evs != [] ==> committed <= cutoff && SplitAt(evs, t.start[w] - base, committed)
    ensures r.Describe(evs, base, tracks)
    ensures forall u :: 0 <= u < NUM_WINDOWS && u != w ==> r.start[u] == t.start[u]
    ensures SplitAt(evs, r.start[w] - base, cutoff)
  {
    r := t;
    Described(t, evs, base, tracks, w);
    while r.start[w] < base + |evs| && evs[r.start[w] - base].time <= cutoff
      invariant r.Describe(evs, base, tracks)
      invariant forall u :: 0 <= u < NUM_WINDOWS && u != w ==> r.start[u] == t.start[u]
      invariant base <= t.start[w] <= r.start[w] <= base + |evs|
      invariant r.start[w] > t.start[w] ==> evs[r.start[w] - base - 1].time <= cutoff
      decreases base + |evs| - r.start[w]
    {
      LeftDescribes(r, evs, base, tracks, w);
      r := Left(r, w, evs[r.start[w] - base], tracks);
    }
    if evs != [] {
      SplitWhereWalkStops(evs, t.start[w] - base, r.start[w] - base, committed, cutoff);
    }
  }

  /** Window w's totals at now, computed beside the stored ones: k marks where the window then starts, and the totals
  are those of the events from there on. */
  method Walk(evs: seq<Event>, base: int, t: Totals, w: nat, tracks: bool, now: int, ghost last: int)
      returns (c: int, m: int, d: int, ghost k: nat)
    requires w < NUM_WINDOWS && Ascending(evs) && t.Describe(evs, base, tracks) && t.At(evs, base, last)
    ensures SplitAt(evs, k, Max(now, last) - Seconds(w)) && Tally(evs, k, c, m)
    ensures w == DISTINCT_WINDOW && tracks ==> d == DistinctFrom(evs, k)
  {
    hide SplitAt, Ascending;
    c, m, d := t.count[w], t.milli[w], t.distinct;
    var start, end, tracked, cutoff := t.start[w], base + |evs|, w == DISTINCT_WINDOW && tracks, now - Seconds(w);
    var s := start;
    Described(t, evs, base, tracks, w);
    SplitOf(t, evs, base, last, w);
    if tracked { DistinctOf(t, evs, base); }
    while s < end
      invariant start <= s <= end
      invariant Tally(evs, s - base, c, m)
      invariant tracked ==> d == DistinctFrom(evs, s - base)
      invariant s > start ==> evs[s - base - 1].time <= cutoff
    {
      var x := evs[s - base];
      if x.time > cutoff { break; }
      if tracked {
        LeavingIsLast(t, evs, base, s);
      }
      if tracked && IsLatest(t.cards, x, s) { d := d - 1; }
      s, c, m := s + 1, c - 1, m - x.milli;
    }
    k := s - base;
    SplitWhereWalkStops(evs, start - base, k, last - Seconds(w), cutoff);
  }
}
