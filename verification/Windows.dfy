/** What a velocity feature means: counts, sums and distinct cards over the plain list of events. */
module Windows {
  import opened Numbers
  import opened Domain

  const NUM_WINDOWS: nat := 3
  const DISTINCT_WINDOW := 1
  const WEEK := 2
  const WEEK_SECONDS := 604800

  function Seconds(w: nat): (s: int)
    requires w < NUM_WINDOWS
    ensures 0 < s <= WEEK_SECONDS
  {
    if w == 0 then 3600 else if w == DISTINCT_WINDOW then 86400 else WEEK_SECONDS
  }

  /** One value per window, the [NumWindows] arrays of the source. */
  datatype PerWindow = PerWindow(hour: int, day: int, week: int) {
    function At(w: nat): int
      requires w < NUM_WINDOWS
    {
      if w == 0 then hour else if w == DISTINCT_WINDOW then day else week
    }
    function With(w: nat, v: int): (r: PerWindow)
      requires w < NUM_WINDOWS
      ensures forall u :: 0 <= u < NUM_WINDOWS ==> r.At(u) == if u == w then v else At(u)
    {
      if w == 0 then this.(hour := v) else if w == DISTINCT_WINDOW then this.(day := v) else this.(week := v)
    }
  }

  const NOTHING := PerWindow(0, 0, 0)

  datatype Aggregates = Aggregates(
    count: PerWindow, milli: PerWindow, distinct: Option<int>, seen: bool, first: int, last: int)

  function Unseen(e: Entity): Aggregates {
    Aggregates(NOTHING, NOTHING, if TracksDistinct(e) then Some(0) else None, false, 0, 0)
  }

  function Max(a: int, b: int): int { if a < b then b else a }

  // ---- the definition of a feature --------------------------------------

  /** How many events are strictly later than cutoff. */
  function CountAfter(evs: seq<Event>, cutoff: int): nat {
    if evs == [] then 0 else (if evs[0].time > cutoff then 1 else 0) + CountAfter(evs[1..], cutoff)
  }

  /** What the events strictly later than cutoff add up to. */
  function SumAfter(evs: seq<Event>, cutoff: int): int {
    if evs == [] then 0 else (if evs[0].time > cutoff then evs[0].milli else 0) + SumAfter(evs[1..], cutoff)
  }

  /** The cards, where known, of the events strictly later than cutoff. */
  function CardsAfter(evs: seq<Event>, cutoff: int): set<Num> {
    if evs == [] then {}
    else (if evs[0].time > cutoff && !evs[0].card.NaN? then {evs[0].card} else {}) + CardsAfter(evs[1..], cutoff)
  }

  /** What a key's features are, by definition: per window how many of the listed events are later than its cutoff,
  and what they add up to; over the day, how many cards they name. */
  function Measure(evs: seq<Event>, tracks: bool, first: int, last: int, now: int): Aggregates {
    var at := Max(now, last);
    Aggregates(
      PerWindow(CountAfter(evs, at - Seconds(0)), CountAfter(evs, at - Seconds(1)), CountAfter(evs, at - Seconds(2))),
      PerWindow(SumAfter(evs, at - Seconds(0)), SumAfter(evs, at - Seconds(1)), SumAfter(evs, at - Seconds(2))),
      if tracks then Some(|CardsAfter(evs, at - Seconds(DISTINCT_WINDOW))|) else None,
      true, first, last)
  }

  /** One event more at the end of the list. */
  lemma {:induction false} AfterSnoc(evs: seq<Event>, e: Event, cutoff: int)
    ensures CountAfter(evs + [e], cutoff) == CountAfter(evs, cutoff) + (if e.time > cutoff then 1 else 0)
    ensures SumAfter(evs + [e], cutoff) == SumAfter(evs, cutoff) + (if e.time > cutoff then e.milli else 0)
    ensures CardsAfter(evs + [e], cutoff) ==
              CardsAfter(evs, cutoff) + (if e.time > cutoff && !e.card.NaN? then {e.card} else {})
    decreases |evs|
  {
    if evs == [] {
      assert evs + [e] == [e] && [e][1..] == [];
    } else {
      AfterSnoc(evs[1..], e, cutoff);
      assert (evs + [e])[1..] == evs[1..] + [e];
    }
  }

  // ---- one key's history ------------------------------------------------

  /** The events of one key that some window can still see, with its first and latest times. */
  datatype History = History(first: int, last: int, recent: seq<Event>)

  /** The list without its expired front. */
  function Trim(evs: seq<Event>, cutoff: int): seq<Event> {
    if evs != [] && evs[0].time <= cutoff then Trim(evs[1..], cutoff) else evs
  }

  function Start(ev: Event): History { History(ev.time, ev.time, [ev]) }

  /** One event more; time never runs backward in a history, so an early one is moved to its end. */
  function Record(h: History, ev: Event): History {
    var t := Max(ev.time, h.last);
    History(h.first, t, Trim(h.recent, t - WEEK_SECONDS) + [ev.(time := t)])
  }

  function View(h: History, tracks: bool, now: int): Aggregates {
    Measure(h.recent, tracks, h.first, h.last, now)
  }

  // ---- trimming is invisible --------------------------------------------

  lemma {:induction false} MeasureOfTrim(evs: seq<Event>, early: int, late: int)
    requires early <= late
    ensures CountAfter(Trim(evs, early), late) == CountAfter(evs, late)
    ensures SumAfter(Trim(evs, early), late) == SumAfter(evs, late)
    ensures CardsAfter(Trim(evs, early), late) == CardsAfter(evs, late)
    decreases |evs|
  {
    if evs != [] && evs[0].time <= early {
      MeasureOfTrim(evs[1..], early, late);
    }
  }

  lemma {:induction false} TrimTrim(evs: seq<Event>, early: int, late: int)
    requires early <= late
    ensures Trim(Trim(evs, early), late) == Trim(evs, late)
    decreases |evs|
  {
    if evs != [] && evs[0].time <= early {
      TrimTrim(evs[1..], early, late);
    }
  }

  lemma {:induction false} TrimSnoc(evs: seq<Event>, e: Event, cutoff: int)
    requires cutoff < e.time
    ensures Trim(evs + [e], cutoff) == Trim(evs, cutoff) + [e]
    decreases |evs|
  {
    if evs != [] {
      assert (evs + [e])[1..] == evs[1..] + [e];
      if evs[0].time <= cutoff {
        TrimSnoc(evs[1..], e, cutoff);
      }
    }
  }

  // ---- the plain list ---------------------------------------------------

  /** Times as they are recorded: never before an earlier event's. */
  function Clamp(evs: seq<Event>, last: int): seq<Event> {
    if evs == [] then []
    else
      var t := Max(evs[0].time, last);
      [evs[0].(time := t)] + Clamp(evs[1..], t)
  }

  function Latest(evs: seq<Event>, last: int): int {
    if evs == [] then last else Latest(evs[1..], Max(evs[0].time, last))
  }

  function RecordAll(h: History, evs: seq<Event>): History
    decreases |evs|
  {
    if evs == [] then h else RecordAll(Record(h, evs[0]), evs[1..])
  }

  lemma {:induction false} RecordAllIsPlainList(h: History, all: seq<Event>, evs: seq<Event>)
    requires h.recent == Trim(all, h.last - WEEK_SECONDS)
    ensures var r := RecordAll(h, evs);
            && r.first == h.first
            && r.last == Latest(evs, h.last)
            && r.recent == Trim(all + Clamp(evs, h.last), r.last - WEEK_SECONDS)
    decreases |evs|
  {
    if evs == [] {
      assert all + Clamp(evs, h.last) == all;
    } else {
      var t := Max(evs[0].time, h.last);
      var e := evs[0].(time := t);
      TrimTrim(all, h.last - WEEK_SECONDS, t - WEEK_SECONDS);
      TrimSnoc(all, e, t - WEEK_SECONDS);
      RecordAllIsPlainList(Record(h, evs[0]), all + [e], evs[1..]);
      assert all + Clamp(evs, h.last) == (all + [e]) + Clamp(evs[1..], t);
    }
  }

  /** A history that forgets expired events answers every read exactly as the plain list of all
  the events recorded for the key does. */
  lemma ViewIsPlainList(ev: Event, evs: seq<Event>, tracks: bool, now: int)
    ensures View(RecordAll(Start(ev), evs), tracks, now)
         == Measure([ev] + Clamp(evs, ev.time), tracks, ev.time, Latest(evs, ev.time), now)
  {
    var h := RecordAll(Start(ev), evs);
    var all := [ev] + Clamp(evs, ev.time);
    RecordAllIsPlainList(Start(ev), [ev], evs);
    var at := Max(now, h.last);
    MeasureOfTrim(all, h.last - WEEK_SECONDS, at - Seconds(0));
    MeasureOfTrim(all, h.last - WEEK_SECONDS, at - Seconds(1));
    MeasureOfTrim(all, h.last - WEEK_SECONDS, at - Seconds(2));
  }
}
