/** What a feature row says about payments: how many the key made in a window, the dollars they add up to, the cards
they used and how long ago they were (internal/features/state.go, internal/features/engine.go). Rows are defined by
events in thousandths of a dollar and by histories that forget; here they are read back in terms of the payments. */
module Payments {
  import opened Numbers
  import opened Domain
  import opened Windows
  import opened Velocity
  import opened Rows
  import opened Engine
  import opened Replay
  import Parts

  // ---- dollars -------------------------------------------------------------------------------------

  /** A number of dollars with at most three decimals. */
  predicate Whole(dollars: real) { (dollars * 1000.0).Floor as real == dollars * 1000.0 }

  /** An amount is kept to the nearest thousandth, so one of at most three decimals exactly. */
  lemma ToMilliRounds(dollars: real)
    ensures var kept := ToMilli(Fin(dollars)) as real / 1000.0; -0.0005 <= kept - dollars <= 0.0005
    ensures Whole(dollars) ==> ToMilli(Fin(dollars)) as real == dollars * 1000.0
  {
    Nearest(dollars * 1000.0);
    NearestWhole((dollars * 1000.0).Floor);
    hide Round;
  }

  lemma Nearest(r: real)
    ensures -0.5 <= Round(r) as real - r <= 0.5
  {}

  lemma NearestWhole(m: int)
    ensures Round(m as real) == m
  {
    Nearest(m as real);
  }

  function Dollars(t: Txn): real { if t.amount.Fin? then t.amount.v else 0.0 }

  // ---- the payments of one key -----------------------------------------------------------------------

  function CountIn(tr: Trail, after: int): nat {
    if tr.Nobody? then 0 else CountIn(tr.before, after) + if tr.txn.dt > after then 1 else 0
  }

  function DollarsIn(tr: Trail, after: int): real {
    if tr.Nobody? then 0.0 else DollarsIn(tr.before, after) + if tr.txn.dt > after then Dollars(tr.txn) else 0.0
  }

  function CardsIn(tr: Trail, after: int): set<Num> {
    if tr.Nobody? then {}
    else CardsIn(tr.before, after) + if tr.txn.dt > after && tr.txn.card1.Fin? then {tr.txn.card1} else {}
  }

  /** Every amount has at most three decimals. */
  predicate Exact(tr: Trail) { tr.Then? ==> Exact(tr.before) && Whole(Dollars(tr.txn)) }

  /** The events of a key's payments count them and their cards, and their thousandths add up to the dollars: exactly
  if the amounts are exact, and else up to half a thousandth each. */
  lemma {:induction false} EventsArePayments(tr: Trail, after: int)
    ensures CountAfter(AllEvents(tr), after) == CountIn(tr, after)
    ensures CardsAfter(AllEvents(tr), after) == CardsIn(tr, after)
    ensures Near(SumAfter(AllEvents(tr), after) as real / 1000.0, DollarsIn(tr, after), CountIn(tr, after))
    ensures Exact(tr) ==> SumAfter(AllEvents(tr), after) as real / 1000.0 == DollarsIn(tr, after)
  {
    if tr.Then? {
      EventsArePayments(tr.before, after);
      AfterSnoc(AllEvents(tr.before), EventOf(tr.txn), after);
      EventIsPayment(tr.txn);
      hide EventOf, Whole;
    }
  }

  /** Within half a thousandth for each of n payments. */
  predicate Near(kept: real, dollars: real, n: nat) {
    -0.0005 * n as real <= kept - dollars <= 0.0005 * n as real
  }

  lemma EventIsPayment(t: Txn)
    ensures var ev := EventOf(t);
            && ev.time == t.dt && ev.card == (if t.card1.Fin? then t.card1 else NaN)
            && Near(ev.milli as real / 1000.0, Dollars(t), 1)
            && (Whole(Dollars(t)) ==> ev.milli as real / 1000.0 == Dollars(t))
  {
    if t.amount.Fin? { ToMilliRounds(t.amount.v); }
    hide ToMilli, Whole;
  }

  // ---- a key's features ----------------------------------------------------------------------------------

  /** The windows, in seconds: an hour, a day, a week. */
  function Span(w: nat): int { if w == 0 then 3600 else if w == 1 then 86400 else 604800 }

  /** Payment t is the next of its key, not before the others. */
  predicate NextOf(tr: Trail, t: Txn) { InTime(tr) && (tr.Then? ==> tr.txn.dt <= t.dt) }

  lemma AnswerMeasures(tr: Trail, e: Entity, t: Txn, w: nat)
    requires NextOf(tr, t) && w < 3
    ensures var a := Answer(Fold(tr), e, t.dt);
            && a.count.At(w) == CountAfter(AllEvents(tr), t.dt - Span(w))
            && a.milli.At(w) == SumAfter(AllEvents(tr), t.dt - Span(w))
    ensures Answer(Fold(tr), e, t.dt).distinct ==
              if e == 2 || e == 3 then Some(|CardsAfter(AllEvents(tr), t.dt - 86400)|) else None
  {
    ForgettingKeepsWindows(tr, e, t.dt);
    hide Answer, Fold, InTime, AllEvents, CountAfter, SumAfter, CardsAfter;
  }

  lemma PartSlots(tr: Trail, e: Entity, t: Txn, w: nat)
    requires w < 3
    ensures var p, a := PartOf(tr, e, t), Answer(Fold(tr), e, t.dt);
            && |p| == (if e == 2 || e == 3 then 11 else 10)
            && p[2 * w] == FromInt(a.count.At(w)) && p[2 * w + 1] == SumOf(a.milli.At(w))
            && (a.distinct.Some? && (e == 2 || e == 3) ==> p[10] == FromInt(a.distinct.value))
  {
    hide Answer, Fold;
  }

  /** The numbers of an entity's features, given the payments its key made before: a count, and a sum of dollars that is
  exact for exact amounts. */
  lemma PartMeasures(tr: Trail, e: Entity, t: Txn, w: nat)
    requires NextOf(tr, t) && w < 3
    ensures var p, n := PartOf(tr, e, t), CountIn(tr, t.dt - Span(w));
            && |p| > 2 * w + 1 && p[2 * w] == Fin(n as real)
            && p[2 * w + 1].Fin? && Near(p[2 * w + 1].v, DollarsIn(tr, t.dt - Span(w)), n)
            && (Exact(tr) ==> p[2 * w + 1] == Fin(DollarsIn(tr, t.dt - Span(w))))
  {
    AnswerMeasures(tr, e, t, w);
    PartSlots(tr, e, t, w);
    EventsArePayments(tr, t.dt - Span(w));
    hide Answer, Fold, InTime, AllEvents, CountAfter, SumAfter, CardsAfter, CountIn, DollarsIn, CardsIn, Exact, Near;
    hide PartOf, Span;
  }

  /** And, where they are tracked, the cards of a day. */
  lemma PartCards(tr: Trail, e: Entity, t: Txn)
    requires NextOf(tr, t) && (e == 2 || e == 3)
    ensures |PartOf(tr, e, t)| == 11 && PartOf(tr, e, t)[10] == Fin(|CardsIn(tr, t.dt - 86400)| as real)
  {
    AnswerMeasures(tr, e, t, 0);
    PartSlots(tr, e, t, 0);
    EventsArePayments(tr, t.dt - 86400);
    hide Answer, Fold, InTime, AllEvents, CountAfter, SumAfter, CardsAfter, CountIn, DollarsIn, CardsIn, Exact, Near;
    hide PartOf, Span;
  }

  lemma MeanSlots(tr: Trail, e: Entity, t: Txn)
    ensures var p, a := PartOf(tr, e, t), Answer(Fold(tr), e, t.dt);
            |p| > 7 && p[5] == SumOf(a.milli.At(2)) && p[6] == MeanOf(a) && p[7] == RatioOf(a, t.amount)
  {
    hide Answer, Fold, MeanOf, RatioOf;
  }

  lemma Means(a: Aggregates, amount: Num)
    requires a.count.At(2) >= 0
    ensures var sum, mean, ratio := SumOf(a.milli.At(2)), MeanOf(a), RatioOf(a, amount);
            && mean == (if a.count.At(2) == 0 then NaN else Fin(sum.v / a.count.At(2) as real))
            && (ratio.Fin? <==> mean.Fin? && mean.v > 0.0 && amount.Fin?)
            && (ratio.Fin? ==> ratio.v == amount.v / mean.v)
  {}

  /** The mean payment of the week, and this payment as a multiple of it: missing without payments, and the multiple
  also when the mean is not positive or the amount is missing. */
  lemma PartMeans(tr: Trail, e: Entity, t: Txn)
    requires NextOf(tr, t)
    ensures var p, n := PartOf(tr, e, t), CountIn(tr, t.dt - 604800);
            && p[5].Fin?
            && p[6] == (if n == 0 then NaN else Fin(p[5].v / n as real))
            && (p[7].Fin? <==> p[6].Fin? && p[6].v > 0.0 && t.amount.Fin?)
            && (p[7].Fin? ==> p[7].v == t.amount.v / p[6].v)
  {
    AnswerMeasures(tr, e, t, 2);
    EventsArePayments(tr, t.dt - 604800);
    MeanSlots(tr, e, t);
    hide Answer, Fold, InTime, AllEvents, CountAfter, SumAfter, CardsAfter, CountIn, DollarsIn, CardsIn, Exact, Near;
    hide PartOf, MeanOf, RatioOf;
    Means(Answer(Fold(tr), e, t.dt), t.amount);
  }

  /** When the key's present spell of payments began: going back from a time, each less than thirty days before the
  next. */
  function Began(tr: Trail, until: int): Option<int> {
    if tr.Nobody? || until - tr.txn.dt >= 30 * 86400 then None
    else
      var earlier := Began(tr.before, tr.txn.dt);
      if earlier.Some? then earlier else Some(tr.txn.dt)
  }

  lemma {:induction false} FirstBegan(tr: Trail, until: int)
    requires InTime(tr)
    ensures tr.Then? ==> Fold(tr).value.last == tr.txn.dt
    ensures Began(tr, until) == if Live(Fold(tr), until).Some? then Some(Fold(tr).value.first) else None
  {
    NoneLater(tr);
    if tr.Then? { FirstBegan(tr.before, tr.txn.dt); }
  }

  /** How long ago the key's spell of payments began and how long ago the last payment was; missing for a key without
  payments in the last thirty days. */
  lemma PartRemembers(tr: Trail, e: Entity, t: Txn)
    requires NextOf(tr, t)
    ensures var p, began := PartOf(tr, e, t), Began(tr, t.dt);
            && p[8] == (if began.Some? then Fin((t.dt - began.value) as real) else NaN)
            && p[9] == (if tr.Then? && t.dt - tr.txn.dt < 30 * 86400 then Fin((t.dt - tr.txn.dt) as real) else NaN)
  {
    FirstBegan(tr, t.dt);
    hide Fold, InTime, Began, CountAfter, SumAfter, CardsAfter;
  }

  // ---- rows over the payments of a stream ------------------------------------------------------------------

  /** Payment u is of the same card, customer, device or email domain as t, and t names one: a card by its number; a
  customer by card, region and day of first use; a device and a domain by their text. */
  predicate Shares(e: Entity, t: Txn, u: Txn) {
    if e == 0 then t.card1.Fin? && u.card1 == t.card1
    else if e == 1 then
      && t.card1.Fin? && t.addr1.Fin? && t.d1.Fin? && u.card1 == t.card1 && u.addr1 == t.addr1 && u.d1.Fin?
      && (u.dt / 86400) as real - u.d1.v == (t.dt / 86400) as real - t.d1.v
    else if e == 2 then t.deviceInfo != "" && u.deviceInfo == t.deviceInfo
    else t.pEmail != "" && u.pEmail == t.pEmail
  }

  lemma KeysAreShared(e: Entity, t: Txn, u: Txn)
    ensures Shares(e, t, u) <==> KeyOf(t, e).Some? && KeyOf(u, e) == KeyOf(t, e)
    ensures Shares(e, t, t) <==> KeyOf(t, e).Some?
    ensures KeyOf(t, e).Some? ==> KeyOf(t, e).value.entity == e
  {}

  /** The earlier payments of the stream that share t's key and fall in the last secs seconds. */
  function Within(e: Entity, txns: seq<Txn>, n: nat, t: Txn, secs: int): (js: set<nat>)
    requires n <= |txns|
    ensures forall j :: j in js ==> j < n
  {
    set j: nat | j < n && Shares(e, t, txns[j]) && txns[j].dt > t.dt - secs
  }

  /** What they add up to. */
  function Spent(e: Entity, txns: seq<Txn>, n: nat, t: Txn, secs: int): real
    requires n <= |txns|
  {
    if n == 0 then 0.0
    else
      Spent(e, txns, n - 1, t, secs)
      + if Shares(e, t, txns[n - 1]) && txns[n - 1].dt > t.dt - secs then Dollars(txns[n - 1]) else 0.0
  }

  /** The known cards these payments used. */
  function Used(txns: seq<Txn>, js: set<nat>): set<Num>
    requires forall j :: j in js ==> j < |txns|
  {
    set j | j in js && txns[j].card1.Fin? :: txns[j].card1
  }

  /** How many known cards the payments of a day used. */
  function CardsOfDay(e: Entity, txns: seq<Txn>, n: nat, t: Txn): nat
    requires n <= |txns|
  {
    |Used(txns, Within(e, txns, n, t, 86400))|
  }

  /** Every earlier payment with t's key has an exact amount. */
  predicate ExactSo(e: Entity, txns: seq<Txn>, n: nat, t: Txn)
    requires n <= |txns|
  {
    forall j :: 0 <= j < n && Shares(e, t, txns[j]) ==> Whole(Dollars(txns[j]))
  }

  lemma WithinNext(e: Entity, txns: seq<Txn>, n: nat, t: Txn, secs: int)
    requires 0 < n <= |txns|
    ensures var less := Within(e, txns, n - 1, t, secs);
            Within(e, txns, n, t, secs)
            == if Shares(e, t, txns[n - 1]) && txns[n - 1].dt > t.dt - secs then less + {n - 1} else less
  {
    hide Shares;
    var less, all := Within(e, txns, n - 1, t, secs), Within(e, txns, n, t, secs);
    if Shares(e, t, txns[n - 1]) && txns[n - 1].dt > t.dt - secs {
      assert all == less + {n - 1};
    } else {
      assert all == less;
    }
  }

  lemma OneMore(js: set<nat>, n: nat)
    requires n !in js
    ensures |js + {n}| == |js| + 1
  {}

  lemma UsedNext(txns: seq<Txn>, js: set<nat>, n: nat)
    requires n < |txns| && forall j :: j in js ==> j < |txns|
    ensures Used(txns, js + {n}) == if txns[n].card1.Fin? then Used(txns, js) + {txns[n].card1} else Used(txns, js)
  {
    forall c | c in Used(txns, js) ensures c in Used(txns, js + {n}) {
      var j :| j in js && txns[j].card1.Fin? && txns[j].card1 == c;
      assert j in js + {n};
    }
    if txns[n].card1.Fin? { assert n in js + {n}; }
  }

  /** The trail of t's key is those payments, in order: their number and their cards. */
  lemma {:induction false} TrailIsShared(e: Entity, txns: seq<Txn>, n: nat, t: Txn, k: Key, secs: int)
    requires n <= |txns| && KeyOf(t, e) == Some(k)
    ensures var tr, js := TrailOf(k, txns, n), Within(e, txns, n, t, secs);
            CountIn(tr, t.dt - secs) == |js| && CardsIn(tr, t.dt - secs) == Used(txns, js)
    decreases n
  {
    hide *;
    KeysAreShared(e, t, t);
    if n > 0 {
      var u, was, js := txns[n - 1], TrailOf(k, txns, n - 1), Within(e, txns, n - 1, t, secs);
      KeysAreShared(e, t, u);
      TrailNext(k, txns, n);
      ThenIs(was, u, t.dt - secs);
      TrailIsShared(e, txns, n - 1, t, k, secs);
      WithinNext(e, txns, n, t, secs);
      if Shares(e, t, u) && u.dt > t.dt - secs {
        OneMore(js, n - 1);
        UsedNext(txns, js, n - 1);
      }
    } else {
      NoneWithin(e, txns, k, t, secs);
    }
  }

  lemma TrailNext(k: Key, txns: seq<Txn>, n: nat)
    requires 0 < n <= |txns|
    ensures TrailOf(k, txns, n) == if KeyOf(txns[n - 1], k.entity) == Some(k)
                                   then Then(TrailOf(k, txns, n - 1), txns[n - 1]) else TrailOf(k, txns, n - 1)
  {}

  lemma ThenIs(tr: Trail, u: Txn, after: int)
    ensures CountIn(Then(tr, u), after) == CountIn(tr, after) + if u.dt > after then 1 else 0
    ensures CardsIn(Then(tr, u), after)
            == if u.dt > after && u.card1.Fin? then CardsIn(tr, after) + {u.card1} else CardsIn(tr, after)
  {}

  lemma NoneWithin(e: Entity, txns: seq<Txn>, k: Key, t: Txn, secs: int)
    ensures Within(e, txns, 0, t, secs) == {} && Used(txns, {}) == {}
    ensures CountIn(TrailOf(k, txns, 0), t.dt - secs) == 0 && CardsIn(TrailOf(k, txns, 0), t.dt - secs) == {}
  {}

  lemma CardsAreShared(e: Entity, txns: seq<Txn>, n: nat, t: Txn, k: Key)
    requires n <= |txns| && KeyOf(t, e) == Some(k)
    ensures |CardsIn(TrailOf(k, txns, n), t.dt - 86400)| == CardsOfDay(e, txns, n, t)
  {
    hide KeyOf, Shares, Within, Used, CardsIn, TrailOf;
    TrailIsShared(e, txns, n, t, k, 86400);
  }

  /** And their dollars. */
  lemma {:induction false} TrailIsSpent(e: Entity, txns: seq<Txn>, n: nat, t: Txn, k: Key, secs: int)
    requires n <= |txns| && KeyOf(t, e) == Some(k)
    ensures DollarsIn(TrailOf(k, txns, n), t.dt - secs) == Spent(e, txns, n, t, secs)
    ensures ExactSo(e, txns, n, t) ==> Exact(TrailOf(k, txns, n))
    decreases n
  {
    hide Shares, KeyOf, Dollars, Whole;
    if n > 0 {
      KeysAreShared(e, t, txns[n - 1]);
      TrailIsSpent(e, txns, n - 1, t, k, secs);
    }
  }

  lemma TrailIsNext(e: Entity, txns: seq<Txn>, i: nat, k: Key)
    requires i < |txns| && Increasing(txns, |txns|)
    ensures NextOf(TrailOf(k, txns, i), txns[i])
  {
    Parts.TrailOfInTime(k, txns, i);
    var tr := TrailOf(k, txns, i);
    if tr.Then? {
      var j: nat :| j < i && tr.txn == txns[j];
      Parts.IncreasingAt(txns, j, i);
    }
    hide TrailOf, InTime;
  }

  lemma WidthIs(e: Entity)
    ensures Rows.Width(e) == if e == 2 || e == 3 then 11 else 10
  {}

  /** A slot that is the k-th of an entity's: of a row the engine writes for a payment whose keys have these trails. */
  lemma SlotOf(cat: Catalog, trails: Key -> Trail, t: Txn, s: nat, e: Entity, k: nat)
    requires s < |cat.num| && cat.num[s] == Velocity(e, k) && k < Rows.Width(e)
    ensures RowOf(cat, t, PartsOf(trails, t)).num[s] ==
              if KeyOf(t, e).Some? then PartOf(trails(KeyOf(t, e).value), e, t)[k] else NaN
  {
    assert PartsOf(trails, t)[e] == if KeyOf(t, e).Some? then PartOf(trails(KeyOf(t, e).value), e, t) else Missing(e);
    hide KeyOf, FeatureAt, Answer, Fold;
  }

  /** And of payment i's row in replay. */
  lemma SlotIs(cat: Catalog, txns: seq<Txn>, i: nat, s: nat, e: Entity, k: nat)
    requires i < |txns| && s < |cat.num| && cat.num[s] == Velocity(e, k) && k < Rows.Width(e)
    ensures ReplayRow(cat, txns, i).num[s] ==
              if KeyOf(txns[i], e).Some? then PartOf(TrailOf(KeyOf(txns[i], e).value, txns, i), e, txns[i])[k] else NaN
  {
    SlotOf(cat, TrailsOf(txns, i), txns[i], s, e, k);
    hide KeyOf, PartOf, TrailOf, RowOf, PartsOf, Rows.Width;
  }

  /** A row carries the payment's own fields, each in its slot, and leaves the score's and unknown slots empty. */
  lemma RowCarries(cat: Catalog, txns: seq<Txn>, i: nat, s: nat)
    requires i < |txns|
    ensures var t, row := txns[i], ReplayRow(cat, txns, i);
            && |row.num| == |cat.num| && |row.str| == |cat.str|
            && (s < |cat.num| ==>
                  && (cat.num[s] == Amount ==> row.num[s] == t.amount)
                  && (cat.num[s] == Distance ==> row.num[s] == t.dist1)
                  && (cat.num[s] == Region ==> row.num[s] == t.addr1)
                  && (cat.num[s] == Country ==> row.num[s] == t.addr2)
                  && (cat.num[s] == RiskScore || cat.num[s].Extra? ==> row.num[s] == NaN))
            && (s < |cat.str| ==>
                  && (cat.str[s] == Product ==> row.str[s] == t.product)
                  && (cat.str[s] == Network ==> row.str[s] == t.card4)
                  && (cat.str[s] == CardType ==> row.str[s] == t.card6)
                  && (cat.str[s] == PurchaserEmail ==> row.str[s] == t.pEmail)
                  && (cat.str[s] == RecipientEmail ==> row.str[s] == t.rEmail)
                  && (cat.str[s] == DeviceType ==> row.str[s] == t.deviceType)
                  && (cat.str[s] == DeviceInfo ==> row.str[s] == t.deviceInfo)
                  && (cat.str[s].ExtraStr? ==> row.str[s] == ""))
  {
    hide PartsOf, TrailsOf;
  }

  /** A key's count and sum for window w, in terms of the payments of the stream. */
  lemma KeyMeasures(e: Entity, txns: seq<Txn>, i: nat, k: Key, w: nat)
    requires i < |txns| && Increasing(txns, |txns|) && w < 3 && KeyOf(txns[i], e) == Some(k)
    ensures var t, p, js := txns[i], PartOf(TrailOf(k, txns, i), e, txns[i]), Within(e, txns, i, txns[i], Span(w));
            && |p| > 2 * w + 1 && p[2 * w] == Fin(|js| as real)
            && p[2 * w + 1].Fin? && Near(p[2 * w + 1].v, Spent(e, txns, i, t, Span(w)), |js|)
            && (ExactSo(e, txns, i, t) ==> p[2 * w + 1] == Fin(Spent(e, txns, i, t, Span(w))))
  {
    hide *;
    TrailIsNext(e, txns, i, k);
    TrailIsShared(e, txns, i, txns[i], k, Span(w));
    TrailIsSpent(e, txns, i, txns[i], k, Span(w));
    PartMeasures(TrailOf(k, txns, i), e, txns[i], w);
  }

  /** Of window w of a row replay writes, for a payment that has the entity's key: how many earlier payments share it
  and are less than an hour, a day or a week old. */
  lemma RowCounts(cat: Catalog, txns: seq<Txn>, i: nat, s: nat, e: Entity, w: nat)
    requires i < |txns| && Increasing(txns, |txns|) && w < 3 && s < |cat.num| && cat.num[s] == Velocity(e, 2 * w)
    ensures var t := txns[i];
            ReplayRow(cat, txns, i).num[s] ==
              if Shares(e, t, t) then Fin(|Within(e, txns, i, t, Span(w))| as real) else NaN
  {
    hide *;
    KeysAreShared(e, txns[i], txns[i]);
    WidthIs(e);
    SlotIs(cat, txns, i, s, e, 2 * w);
    if KeyOf(txns[i], e).Some? { KeyMeasures(e, txns, i, KeyOf(txns[i], e).value, w); }
  }

  /** And the dollars those payments add up to: exactly if no amount has more than three decimals, and up to half a
  thousandth for each payment whatever the amounts. */
  lemma RowSums(cat: Catalog, txns: seq<Txn>, i: nat, s: nat, e: Entity, w: nat)
    requires i < |txns| && Increasing(txns, |txns|) && w < 3 && s < |cat.num| && cat.num[s] == Velocity(e, 2 * w + 1)
    ensures var t, v := txns[i], ReplayRow(cat, txns, i).num[s];
            && (!Shares(e, t, t) ==> v == NaN)
            && (Shares(e, t, t) ==>
                  && v.Fin?
                  && Near(v.v, Spent(e, txns, i, t, Span(w)), |Within(e, txns, i, t, Span(w))|)
                  && (ExactSo(e, txns, i, t) ==> v == Fin(Spent(e, txns, i, t, Span(w)))))
  {
    hide *;
    KeysAreShared(e, txns[i], txns[i]);
    WidthIs(e);
    SlotIs(cat, txns, i, s, e, 2 * w + 1);
    if KeyOf(txns[i], e).Some? { KeyMeasures(e, txns, i, KeyOf(txns[i], e).value, w); }
  }

  /** For a device or an email domain, how many cards paid with it within a day. */
  lemma RowCards(cat: Catalog, txns: seq<Txn>, i: nat, s: nat, e: Entity)
    requires i < |txns| && Increasing(txns, |txns|) && (e == 2 || e == 3) && s < |cat.num|
    requires cat.num[s] == Velocity(e, 10)
    ensures var t := txns[i];
            ReplayRow(cat, txns, i).num[s] ==
              if Shares(e, t, t) then Fin(CardsOfDay(e, txns, i, t) as real) else NaN
  {
    hide *;
    KeysAreShared(e, txns[i], txns[i]);
    WidthIs(e);
    SlotIs(cat, txns, i, s, e, 10);
    if KeyOf(txns[i], e).Some? {
      var k := KeyOf(txns[i], e).value;
      TrailIsNext(e, txns, i, k);
      CardsAreShared(e, txns, i, txns[i], k);
      PartCards(TrailOf(k, txns, i), e, txns[i]);
    }
  }

  /** The mean of the week's payments, and this payment's amount as a multiple of it. */
  lemma RowMeans(cat: Catalog, txns: seq<Txn>, i: nat, sum: nat, mean: nat, ratio: nat, e: Entity)
    requires i < |txns| && Increasing(txns, |txns|) && sum < |cat.num| && mean < |cat.num| && ratio < |cat.num|
    requires cat.num[sum] == Velocity(e, 5) && cat.num[mean] == Velocity(e, 6) && cat.num[ratio] == Velocity(e, 7)
    ensures var t, row := txns[i], ReplayRow(cat, txns, i).num;
            var n := |Within(e, txns, i, t, 604800)|;
            && (row[mean].Fin? <==> Shares(e, t, t) && n > 0)
            && (row[mean].Fin? ==> row[sum].Fin? && row[mean].v == row[sum].v / n as real)
            && (row[ratio].Fin? <==> row[mean].Fin? && row[mean].v > 0.0 && t.amount.Fin?)
            && (row[ratio].Fin? ==> row[ratio].v == t.amount.v / row[mean].v)
  {
    hide *;
    KeysAreShared(e, txns[i], txns[i]);
    WidthIs(e);
    SlotIs(cat, txns, i, sum, e, 5);
    SlotIs(cat, txns, i, mean, e, 6);
    SlotIs(cat, txns, i, ratio, e, 7);
    if KeyOf(txns[i], e).Some? {
      var k := KeyOf(txns[i], e).value;
      TrailIsNext(e, txns, i, k);
      TrailIsShared(e, txns, i, txns[i], k, 604800);
      PartMeans(TrailOf(k, txns, i), e, txns[i]);
    }
  }

  /** The time of the latest earlier payment with t's key. */
  function Latest(e: Entity, txns: seq<Txn>, n: nat, t: Txn): Option<int>
    requires n <= |txns|
  {
    if n == 0 then None
    else if Shares(e, t, txns[n - 1]) then Some(txns[n - 1].dt)
    else Latest(e, txns, n - 1, t)
  }

  /** The time of the earliest one from which on no pause, up to the given time, is thirty days long. */
  function Spell(e: Entity, txns: seq<Txn>, n: nat, t: Txn, until: int): Option<int>
    requires n <= |txns|
  {
    if n == 0 then None
    else if !Shares(e, t, txns[n - 1]) then Spell(e, txns, n - 1, t, until)
    else if until - txns[n - 1].dt >= 30 * 86400 then None
    else
      var earlier := Spell(e, txns, n - 1, t, txns[n - 1].dt);
      if earlier.Some? then earlier else Some(txns[n - 1].dt)
  }

  lemma {:induction false} TrailIsSpell(e: Entity, txns: seq<Txn>, n: nat, t: Txn, k: Key, until: int)
    requires n <= |txns| && KeyOf(t, e) == Some(k)
    ensures var tr := TrailOf(k, txns, n);
            && Began(tr, until) == Spell(e, txns, n, t, until)
            && Latest(e, txns, n, t) == if tr.Then? then Some(tr.txn.dt) else None
    decreases n
  {
    KeysAreShared(e, t, t);
    if n > 0 {
      KeysAreShared(e, t, txns[n - 1]);
      hide Shares, KeyOf;
      TrailIsSpell(e, txns, n - 1, t, k, until);
      TrailIsSpell(e, txns, n - 1, t, k, txns[n - 1].dt);
    }
  }

  /** How long ago the key's present spell of payments began and how long ago its last payment was; both missing
  without a payment in the last thirty days. */
  lemma RowRemembers(cat: Catalog, txns: seq<Txn>, i: nat, first: nat, last: nat, e: Entity)
    requires i < |txns| && Increasing(txns, |txns|) && first < |cat.num| && last < |cat.num|
    requires cat.num[first] == Velocity(e, 8) && cat.num[last] == Velocity(e, 9)
    ensures var t, row := txns[i], ReplayRow(cat, txns, i).num;
            var spell, latest := Spell(e, txns, i, t, t.dt), Latest(e, txns, i, t);
            && row[first] == (if Shares(e, t, t) && spell.Some? then Fin((t.dt - spell.value) as real) else NaN)
            && row[last] == (if Shares(e, t, t) && latest.Some? && t.dt - latest.value < 30 * 86400
                             then Fin((t.dt - latest.value) as real) else NaN)
  {
    hide *;
    KeysAreShared(e, txns[i], txns[i]);
    WidthIs(e);
    SlotIs(cat, txns, i, first, e, 8);
    SlotIs(cat, txns, i, last, e, 9);
    if KeyOf(txns[i], e).Some? {
      var k := KeyOf(txns[i], e).value;
      TrailIsNext(e, txns, i, k);
      TrailIsSpell(e, txns, i, txns[i], k, txns[i].dt);
      PartRemembers(TrailOf(k, txns, i), e, txns[i]);
    }
  }
}
