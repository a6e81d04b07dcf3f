/** The exact velocity entry of one key: running totals per window, with expiry committed only
by an add and replayed on local copies by a read (internal/features/exact.go). */
module ExactSpec {
  import opened Numbers
  import opened Domain
  import opened Windows

  predicate Ascending(evs: seq<Event>) {
    |evs| > 1 ==> evs[0].time <= evs[1].time && Ascending(evs[1..])
  }

  lemma {:induction false} AscendingPair(evs: seq<Event>, i: nat, j: nat)
    requires Ascending(evs) && i <= j < |evs|
    ensures evs[i].time <= evs[j].time
  {
    if i > 0 {
      AscendingPair(evs[1..], i - 1, j - 1);
    } else if j > 0 {
      AscendingPair(evs[1..], 0, j - 1);
    }
  }

  lemma {:induction false} AscendingSnoc(evs: seq<Event>, e: Event)
    requires Ascending(evs) && (evs != [] ==> evs[|evs| - 1].time <= e.time)
    ensures Ascending(evs + [e])
  {
    if |evs| > 1 {
      assert (evs + [e])[1..] == evs[1..] + [e];
      AscendingSnoc(evs[1..], e);
    } else if |evs| == 1 {
      assert (evs + [e])[1..] == [e];
    }
  }

  /** In an ascending list, the first k events are at or before cutoff and the others after it. */
  predicate SplitAt(evs: seq<Event>, k: int, cutoff: int) {
    && 0 <= k <= |evs|
    && (k > 0 ==> evs[k - 1].time <= cutoff)
    && (k < |evs| ==> evs[k].time > cutoff)
  }

  /** What the events from index k on add up to. */
  function TotalFrom(evs: seq<Event>, k: nat): int
    decreases |evs| - k
  {
    if k >= |evs| then 0 else evs[k].milli + TotalFrom(evs, k + 1)
  }

  /** Whether card c is carried from index k on. */
  predicate Carries(evs: seq<Event>, k: nat, c: Num)
    decreases |evs| - k
  {
    k < |evs| && (evs[k].card == c || Carries(evs, k + 1, c))
  }

  /** Event k carries a card that no later event carries. */
  predicate IsLast(evs: seq<Event>, k: nat)
    requires k < |evs|
  {
    !evs[k].card.NaN? && !Carries(evs, k + 1, evs[k].card)
  }

  lemma {:induction false} CarriesAt(evs: seq<Event>, k: nat, j: nat)
    requires k <= j < |evs|
    ensures Carries(evs, k, evs[j].card)
    decreases j - k
  {
    if k < j { CarriesAt(evs, k + 1, j); }
  }

  /** How many cards the events from index k on carry: one per last occurrence. */
  function DistinctFrom(evs: seq<Event>, k: nat): int
    decreases |evs| - k
  {
    if k >= |evs| then 0 else (if IsLast(evs, k) then 1 else 0) + DistinctFrom(evs, k + 1)
  }

  /** A window that starts at index k holds c events that add up to m and d cards. */
  predicate Tally(evs: seq<Event>, k: int, c: int, m: int) {
    0 <= k <= |evs| && c == |evs| - k && m == TotalFrom(evs, k)
  }

  /** The card map of a window that starts at index k, when index 0 has sequence number base:
  every card of the window with the sequence number of its last event. */
  predicate CardsMatch(cards: map<Num, int>, evs: seq<Event>, base: int, k: int) {
    && (forall i {:trigger IsLast(evs, i)} :: 0 <= k <= i < |evs| && IsLast(evs, i) ==>
          evs[i].card in cards && cards[evs[i].card] == base + i)
    && (forall c :: c in cards ==>
          && 0 <= k <= cards[c] - base < |evs|
          && !c.NaN? && evs[cards[c] - base].card == c && !Carries(evs, cards[c] - base + 1, c))
  }

  /** The test the code makes: does the card map say that event s is its card's latest? */
  predicate IsLatest(cards: map<Num, int>, x: Event, s: int) {
    !x.card.NaN? && x.card in cards && cards[x.card] == s
  }

  lemma IsLatestIsLast(cards: map<Num, int>, evs: seq<Event>, base: int, from: int, k: nat)
    requires CardsMatch(cards, evs, base, from) && 0 <= from <= k < |evs|
    ensures IsLatest(cards, evs[k], base + k) == IsLast(evs, k)
  {}

  lemma CardsStep(cards: map<Num, int>, left: map<Num, int>, evs: seq<Event>, base: int, k: nat)
    requires CardsMatch(cards, evs, base, k) && k < |evs|
    requires left == if IsLast(evs, k) then cards - {evs[k].card} else cards
    ensures CardsMatch(left, evs, base, k + 1)
  {
    forall i {:trigger IsLast(evs, i)} | k + 1 <= i < |evs| && IsLast(evs, i)
      ensures evs[i].card in left && left[evs[i].card] == base + i
    {
      assert evs[i].card in cards;
    }
    forall c | c in left
      ensures !c.NaN? && k + 1 <= left[c] - base < |evs| && evs[left[c] - base].card == c
      ensures !Carries(evs, left[c] - base + 1, c)
    {
      assert c in cards;
    }
  }

  /** Running totals of one key: per window the start, the count and the sum, and the card map. */
  datatype Totals = Totals(start: seq<int>, count: seq<int>, milli: seq<int>, cards: map<Num, int>, distinct: int) {
    /** The totals describe evs, whose first event has sequence number base. */
    predicate Describe(evs: seq<Event>, base: int, tracks: bool) {
      && |start| == |count| == |milli| == NUM_WINDOWS
      && DescribeFrom(evs, base, tracks, 0)
    }

    /** Windows w and longer are tallied, and the card map matches. */
    predicate DescribeFrom(evs: seq<Event>, base: int, tracks: bool, w: nat)
      requires |start| == |count| == |milli| == NUM_WINDOWS && w <= NUM_WINDOWS
      decreases NUM_WINDOWS - w
    {
      if w < NUM_WINDOWS then
        Tally(evs, start[w] - base, count[w], milli[w]) && DescribeFrom(evs, base, tracks, w + 1)
      else
        tracks && base <= start[DISTINCT_WINDOW] ==>
          && CardsMatch(cards, evs, base, start[DISTINCT_WINDOW] - base)
          && distinct == DistinctFrom(evs, start[DISTINCT_WINDOW] - base)
    }

    /** Every window from w on starts where events stop being at or before now - W. */
    predicate AtFrom(evs: seq<Event>, base: int, now: int, w: nat)
      requires |start| == NUM_WINDOWS && w <= NUM_WINDOWS
      decreases NUM_WINDOWS - w
    {
      w < NUM_WINDOWS ==> SplitAt(evs, start[w] - base, now - Seconds(w)) && AtFrom(evs, base, now, w + 1)
    }

    predicate At(evs: seq<Event>, base: int, now: int) {
      |start| == NUM_WINDOWS && AtFrom(evs, base, now, 0)
    }
  }

  lemma Described(t: Totals, evs: seq<Event>, base: int, tracks: bool, w: nat)
    requires t.Describe(evs, base, tracks) && w < NUM_WINDOWS
    ensures Tally(evs, t.start[w] - base, t.count[w], t.milli[w])
  {
    assert t.DescribeFrom(evs, base, tracks, 1);
    assert t.DescribeFrom(evs, base, tracks, 2);
  }

  lemma DescribedCards(t: Totals, evs: seq<Event>, base: int)
    requires t.Describe(evs, base, true)
    ensures base <= t.start[DISTINCT_WINDOW] <= base + |evs|
    ensures CardsMatch(t.cards, evs, base, t.start[DISTINCT_WINDOW] - base)
    ensures t.distinct == DistinctFrom(evs, t.start[DISTINCT_WINDOW] - base)
  {
    Described(t, evs, base, true, DISTINCT_WINDOW);
    assert t.DescribeFrom(evs, base, true, 2);
    assert t.DescribeFrom(evs, base, true, 3);
  }

  lemma DistinctOf(t: Totals, evs: seq<Event>, base: int)
    requires t.Describe(evs, base, true)
    ensures base <= t.start[DISTINCT_WINDOW] <= base + |evs|
    ensures t.distinct == DistinctFrom(evs, t.start[DISTINCT_WINDOW] - base)
  {
    DescribedCards(t, evs, base);
  }

  /** The card map names event s as its card's latest exactly when no later event carries the card. */
  lemma LeavingIsLast(t: Totals, evs: seq<Event>, base: int, s: int)
    requires t.Describe(evs, base, true) && base <= t.start[DISTINCT_WINDOW] <= s < base + |evs|
    ensures IsLatest(t.cards, evs[s - base], s) == IsLast(evs, s - base)
  {
    DescribedCards(t, evs, base);
    IsLatestIsLast(t.cards, evs, base, t.start[DISTINCT_WINDOW] - base, s - base);
  }

  lemma Describes(t: Totals, evs: seq<Event>, base: int, tracks: bool)
    requires |t.start| == |t.count| == |t.milli| == NUM_WINDOWS
    requires Tally(evs, t.start[0] - base, t.count[0], t.milli[0])
    requires Tally(evs, t.start[1] - base, t.count[1], t.milli[1])
    requires Tally(evs, t.start[2] - base, t.count[2], t.milli[2])
    requires tracks ==>
               && CardsMatch(t.cards, evs, base, t.start[DISTINCT_WINDOW] - base)
               && t.distinct == DistinctFrom(evs, t.start[DISTINCT_WINDOW] - base)
    ensures t.Describe(evs, base, tracks)
  {
    assert t.DescribeFrom(evs, base, tracks, 3);
    assert t.DescribeFrom(evs, base, tracks, 2);
    assert t.DescribeFrom(evs, base, tracks, 1);
  }

  lemma SplitOf(t: Totals, evs: seq<Event>, base: int, now: int, w: nat)
    requires t.At(evs, base, now) && w < NUM_WINDOWS
    ensures SplitAt(evs, t.start[w] - base, now - Seconds(w))
  {
    assert t.AtFrom(evs, base, now, 1);
    assert t.AtFrom(evs, base, now, 2);
  }

  lemma SplitsAre(t: Totals, evs: seq<Event>, base: int, now: int)
    requires |t.start| == NUM_WINDOWS
    requires forall w :: 0 <= w < NUM_WINDOWS ==> SplitAt(evs, t.start[w] - base, now - Seconds(w))
    ensures t.At(evs, base, now)
  {
    assert t.AtFrom(evs, base, now, 3);
    assert t.AtFrom(evs, base, now, 2);
    assert t.AtFrom(evs, base, now, 1);
  }

  function WithoutCard(t: Totals, leaves: bool, c: Num): (map<Num, int>, int) {
    if leaves then (t.cards - {c}, t.distinct - 1) else (t.cards, t.distinct)
  }

  /** The totals after event x has left window w. */
  function Left(t: Totals, w: nat, x: Event, tracks: bool): Totals
    requires w < |t.start| == |t.count| == |t.milli|
  {
    var (cards, distinct) := WithoutCard(t, w == DISTINCT_WINDOW && tracks && IsLatest(t.cards, x, t.start[w]), x.card);
    Totals(t.start[w := t.start[w] + 1], t.count[w := t.count[w] - 1], t.milli[w := t.milli[w] - x.milli], cards,
      distinct)
  }

  lemma LeftDescribes(t: Totals, evs: seq<Event>, base: int, tracks: bool, w: nat)
    requires t.Describe(evs, base, tracks) && w < NUM_WINDOWS && base <= t.start[w] < base + |evs|
    ensures Left(t, w, evs[t.start[w] - base], tracks).Describe(evs, base, tracks)
  {
    var k := t.start[w] - base;
    var r := Left(t, w, evs[k], tracks);
    Described(t, evs, base, tracks, 0);
    Described(t, evs, base, tracks, 1);
    Described(t, evs, base, tracks, 2);
    if tracks {
      DescribedCards(t, evs, base);
      if w == DISTINCT_WINDOW {
        IsLatestIsLast(t.cards, evs, base, k, k);
        CardsStep(t.cards, r.cards, evs, base, k);
      }
    }
    Describes(r, evs, base, tracks);
  }

  // ---- appending --------------------------------------------------------

  lemma {:induction false} TotalSnoc(evs: seq<Event>, k: nat, e: Event)
    requires k <= |evs|
    ensures TotalFrom(evs + [e], k) == TotalFrom(evs, k) + e.milli
    decreases |evs| - k
  {
    if k < |evs| { TotalSnoc(evs, k + 1, e); }
  }

  lemma {:induction false} CarriesSnoc(evs: seq<Event>, k: nat, e: Event, c: Num)
    requires k <= |evs|
    ensures Carries(evs + [e], k, c) == (Carries(evs, k, c) || e.card == c)
    decreases |evs| - k
  {
    if k < |evs| { CarriesSnoc(evs, k + 1, e, c); }
  }

  lemma LastSnoc(evs: seq<Event>, k: nat, e: Event)
    requires k < |evs|
    ensures IsLast(evs + [e], k) == (IsLast(evs, k) && evs[k].card != e.card)
  {
    CarriesSnoc(evs, k + 1, e, evs[k].card);
  }

  lemma {:induction false} DistinctSnoc(evs: seq<Event>, k: nat, e: Event)
    requires k <= |evs|
    ensures DistinctFrom(evs + [e], k) == DistinctFrom(evs, k) + if e.card.NaN? || Carries(evs, k, e.card) then 0 else 1
    decreases |evs| - k
  {
    if k < |evs| {
      DistinctSnoc(evs, k + 1, e);
      LastSnoc(evs, k, e);
    }
  }

  lemma CarriesIsInCards(cards: map<Num, int>, evs: seq<Event>, base: int, k: nat, c: Num)
    requires CardsMatch(cards, evs, base, k) && k <= |evs| && !c.NaN?
    ensures Carries(evs, k, c) == (c in cards)
  {
    if Carries(evs, k, c) {
      var i := LastOccurrence(evs, k, c);
    }
    if c in cards {
      CarriesAt(evs, k, cards[c] - base);
    }
  }

  lemma {:induction false} LastOccurrence(evs: seq<Event>, k: nat, c: Num) returns (i: nat)
    requires Carries(evs, k, c) && !c.NaN?
    ensures k <= i < |evs| && evs[i].card == c && IsLast(evs, i)
    decreases |evs| - k
  {
    if Carries(evs, k + 1, c) {
      i := LastOccurrence(evs, k + 1, c);
    } else {
      i := k;
    }
  }

  lemma CardsSnoc(cards: map<Num, int>, more: map<Num, int>, evs: seq<Event>, base: int, k: nat, e: Event)
    requires CardsMatch(cards, evs, base, k) && k <= |evs|
    requires more == if e.card.NaN? then cards else cards[e.card := base + |evs|]
    ensures CardsMatch(more, evs + [e], base, k)
  {
    var longer := evs + [e];
    assert longer[|evs|] == e;
    forall i {:trigger IsLast(longer, i)} | k <= i < |longer| && IsLast(longer, i)
      ensures longer[i].card in more && more[longer[i].card] == base + i
    {
      if i < |evs| { LastSnoc(evs, i, e); }
    }
    forall c | c in more
      ensures !c.NaN? && k <= more[c] - base < |longer| && longer[more[c] - base].card == c
      ensures !Carries(longer, more[c] - base + 1, c)
    {
      if c == e.card {
        assert more[c] - base == |evs|;
      } else {
        assert c in cards && longer[more[c] - base] == evs[more[c] - base];
        CarriesSnoc(evs, more[c] - base + 1, e, c);
      }
    }
  }

  // ---- dropping the front -----------------------------------------------

  lemma {:induction false} FromTail(evs: seq<Event>, k: nat)
    requires 1 <= k <= |evs|
    ensures TotalFrom(evs[1..], k - 1) == TotalFrom(evs, k)
    ensures DistinctFrom(evs[1..], k - 1) == DistinctFrom(evs, k)
    decreases |evs| - k
  {
    if k < |evs| {
      FromTail(evs, k + 1);
      LastInTail(evs, k);
    }
  }

  lemma {:induction false} CarriesInTail(evs: seq<Event>, k: nat, c: Num)
    requires 1 <= k <= |evs|
    ensures Carries(evs[1..], k - 1, c) == Carries(evs, k, c)
    decreases |evs| - k
  {
    if k < |evs| { CarriesInTail(evs, k + 1, c); }
  }

  lemma LastInTail(evs: seq<Event>, k: nat)
    requires 1 <= k < |evs|
    ensures IsLast(evs[1..], k - 1) == IsLast(evs, k)
  {
    CarriesInTail(evs, k + 1, evs[k].card);
  }

  lemma CardsInTail(cards: map<Num, int>, evs: seq<Event>, base: int, k: nat)
    requires CardsMatch(cards, evs, base, k) && 1 <= k <= |evs|
    ensures CardsMatch(cards, evs[1..], base + 1, k - 1)
  {
    forall i {:trigger IsLast(evs[1..], i)} | k - 1 <= i < |evs[1..]| && IsLast(evs[1..], i)
      ensures evs[1..][i].card in cards && cards[evs[1..][i].card] == base + 1 + i
    {
      LastInTail(evs, i + 1);
    }
    forall c | c in cards
      ensures !c.NaN? && k - 1 <= cards[c] - (base + 1) < |evs[1..]| && evs[1..][cards[c] - (base + 1)].card == c
      ensures !Carries(evs[1..], cards[c] - (base + 1) + 1, c)
    {
      CarriesInTail(evs, cards[c] - base + 1, c);
    }
  }

  // ---- what a split means -----------------------------------------------

  lemma {:induction false} CardsInSuffix(evs: seq<Event>, cutoff: int, c: Num)
    requires Ascending(evs) && SplitAt(evs, 0, cutoff)
    ensures c in CardsAfter(evs, cutoff) <==> !c.NaN? && Carries(evs, 0, c)
  {
    if evs != [] {
      CardsInSuffix(evs[1..], cutoff, c);
      CarriesInTail(evs, 1, c);
    }
  }

  /** Where the list splits, counting is subtraction and the suffix holds the window. */
  lemma {:induction false} MeasureOfSplit(evs: seq<Event>, k: nat, cutoff: int)
    requires Ascending(evs) && SplitAt(evs, k, cutoff)
    ensures CountAfter(evs, cutoff) == |evs| - k
    ensures SumAfter(evs, cutoff) == TotalFrom(evs, k)
    ensures |CardsAfter(evs, cutoff)| == DistinctFrom(evs, k)
    decreases |evs|
  {
    if evs != [] {
      var rest := evs[1..];
      if k > 0 {
        AscendingPair(evs, 0, k - 1);
        MeasureOfSplit(rest, k - 1, cutoff);
        FromTail(evs, k);
      } else {
        MeasureOfSplit(rest, 0, cutoff);
        FromTail(evs, 1);
        NewCardCounts(evs, cutoff);
      }
    }
  }

  lemma NewCardCounts(evs: seq<Event>, cutoff: int)
    requires evs != [] && Ascending(evs) && SplitAt(evs, 0, cutoff)
    ensures |CardsAfter(evs, cutoff)| == |CardsAfter(evs[1..], cutoff)| + if IsLast(evs, 0) then 1 else 0
  {
    var rest, c := evs[1..], evs[0].card;
    CardsInSuffix(rest, cutoff, c);
    CarriesInTail(evs, 1, c);
    if c in CardsAfter(rest, cutoff) {
      assert CardsAfter(evs, cutoff) == CardsAfter(rest, cutoff);
    }
  }

  lemma TallyInTail(evs: seq<Event>, k: int, c: int, m: int)
    requires Tally(evs, k, c, m) && 1 <= k
    ensures Tally(evs[1..], k - 1, c, m)
  {
    FromTail(evs, k);
  }

  /** The totals when an event in front of every window is forgotten. */
  lemma TailDescribes(t: Totals, evs: seq<Event>, base: int, tracks: bool)
    requires t.Describe(evs, base, tracks)
    requires base < t.start[0] && base < t.start[1] && base < t.start[2]
    ensures evs != [] && t.Describe(evs[1..], base + 1, tracks)
  {
    Described(t, evs, base, tracks, 0);
    Described(t, evs, base, tracks, 1);
    Described(t, evs, base, tracks, 2);
    TallyInTail(evs, t.start[0] - base, t.count[0], t.milli[0]);
    TallyInTail(evs, t.start[1] - base, t.count[1], t.milli[1]);
    TallyInTail(evs, t.start[2] - base, t.count[2], t.milli[2]);
    if tracks {
      DescribedCards(t, evs, base);
      FromTail(evs, t.start[DISTINCT_WINDOW] - base);
      CardsInTail(t.cards, evs, base, t.start[DISTINCT_WINDOW] - base);
    }
    Describes(t, evs[1..], base + 1, tracks);
  }

  lemma TailAt(t: Totals, evs: seq<Event>, base: int, now: int)
    requires Ascending(evs) && t.At(evs, base, now)
    requires base < t.start[0] && base < t.start[1] && base < t.start[2]
    ensures evs != [] && Ascending(evs[1..]) && t.At(evs[1..], base + 1, now)
    ensures Trim(evs, now - WEEK_SECONDS) == Trim(evs[1..], now - WEEK_SECONDS)
  {
    SplitOf(t, evs, base, now, 0);
    SplitOf(t, evs, base, now, 1);
    SplitOf(t, evs, base, now, 2);
    AscendingPair(evs, 0, t.start[2] - base - 1);
    SplitsAre(t, evs[1..], base + 1, now);
  }

  /** The totals after an event joins every window at the back. */
  function Pushed(t: Totals, x: Event, seqNo: int, tracks: bool): Totals
    requires |t.start| == |t.count| == |t.milli| == NUM_WINDOWS
  {
    Totals(t.start,
           [t.count[0] + 1, t.count[1] + 1, t.count[2] + 1],
           [t.milli[0] + x.milli, t.milli[1] + x.milli, t.milli[2] + x.milli],
           if tracks && !x.card.NaN? then t.cards[x.card := seqNo] else t.cards,
           if tracks && !x.card.NaN? && x.card !in t.cards then t.distinct + 1 else t.distinct)
  }

  lemma PushedTally(evs: seq<Event>, k: int, c: int, m: int, x: Event)
    requires Tally(evs, k, c, m)
    ensures Tally(evs + [x], k, c + 1, m + x.milli)
  {
    TotalSnoc(evs, k, x);
  }

  lemma PushedCards(t: Totals, evs: seq<Event>, base: int, k: nat, x: Event)
    requires k <= |evs| && CardsMatch(t.cards, evs, base, k) && t.distinct == DistinctFrom(evs, k)
    ensures var cards := if x.card.NaN? then t.cards else t.cards[x.card := base + |evs|];
            var distinct := if !x.card.NaN? && x.card !in t.cards then t.distinct + 1 else t.distinct;
            CardsMatch(cards, evs + [x], base, k) && distinct == DistinctFrom(evs + [x], k)
  {
    DistinctSnoc(evs, k, x);
    if !x.card.NaN? { CarriesIsInCards(t.cards, evs, base, k, x.card); }
    CardsSnoc(t.cards, if x.card.NaN? then t.cards else t.cards[x.card := base + |evs|], evs, base, k, x);
  }

  lemma PushedDescribes(t: Totals, evs: seq<Event>, base: int, tracks: bool, x: Event)
    requires t.Describe(evs, base, tracks)
    ensures Pushed(t, x, base + |evs|, tracks).Describe(evs + [x], base, tracks)
  {
    Described(t, evs, base, tracks, 0);
    Described(t, evs, base, tracks, 1);
    Described(t, evs, base, tracks, 2);
    PushedTally(evs, t.start[0] - base, t.count[0], t.milli[0], x);
    PushedTally(evs, t.start[1] - base, t.count[1], t.milli[1], x);
    PushedTally(evs, t.start[2] - base, t.count[2], t.milli[2], x);
    if tracks {
      DescribedCards(t, evs, base);
      PushedCards(t, evs, base, t.start[DISTINCT_WINDOW] - base, x);
    }
    Describes(Pushed(t, x, base + |evs|, tracks), evs + [x], base, tracks);
  }

  lemma SplitOrder(evs: seq<Event>, k: int, j: int, early: int, late: int)
    requires Ascending(evs) && SplitAt(evs, k, early) && SplitAt(evs, j, late) && early <= late
    ensures k <= j
  {
    if j < k { AscendingPair(evs, j, k - 1); }
  }

  lemma {:induction false} TrimKeepsLast(evs: seq<Event>, cutoff: int)
    ensures var r := Trim(evs, cutoff); r != [] ==> evs != [] && r[|r| - 1] == evs[|evs| - 1]
    decreases |evs|
  {
    if evs != [] && evs[0].time <= cutoff { TrimKeepsLast(evs[1..], cutoff); }
  }

  lemma SplitWhereWalkStops(evs: seq<Event>, from: int, k: int, early: int, late: int)
    requires Ascending(evs) && SplitAt(evs, from, early)
    requires from <= k <= |evs|
    requires k > from ==> evs[k - 1].time <= late
    requires k < |evs| ==> evs[k].time > late
    ensures SplitAt(evs, k, Max(early, late))
  {
    if from < k { AscendingPair(evs, from, k - 1); }
  }

  /** The features of a key, read off the places where its windows start. */
  lemma MeasureFromSplits(evs: seq<Event>, tracks: bool, first: int, last: int, now: int, k0: nat, k1: nat, k2: nat)
    requires Ascending(evs)
    requires SplitAt(evs, k0, Max(now, last) - Seconds(0))
    requires SplitAt(evs, k1, Max(now, last) - Seconds(1))
    requires SplitAt(evs, k2, Max(now, last) - Seconds(2))
    ensures Measure(evs, tracks, first, last, now) == Aggregates(
              PerWindow(|evs| - k0, |evs| - k1, |evs| - k2),
              PerWindow(TotalFrom(evs, k0), TotalFrom(evs, k1), TotalFrom(evs, k2)),
              if tracks then Some(DistinctFrom(evs, k1)) else None, true, first, last)
  {
    var at := Max(now, last);
    CountOfSplit(evs, k0, at - Seconds(0));
    CountOfSplit(evs, k1, at - Seconds(1));
    CountOfSplit(evs, k2, at - Seconds(2));
    CardsOfSplit(evs, k1, at - Seconds(1));
  }

  lemma CountOfSplit(evs: seq<Event>, k: nat, cutoff: int)
    requires Ascending(evs) && SplitAt(evs, k, cutoff)
    ensures CountAfter(evs, cutoff) == |evs| - k && SumAfter(evs, cutoff) == TotalFrom(evs, k)
  {
    MeasureOfSplit(evs, k, cutoff);
  }

  lemma CardsOfSplit(evs: seq<Event>, k: nat, cutoff: int)
    requires Ascending(evs) && SplitAt(evs, k, cutoff)
    ensures |CardsAfter(evs, cutoff)| == DistinctFrom(evs, k)
  {
    MeasureOfSplit(evs, k, cutoff);
  }
}
