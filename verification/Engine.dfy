/** The feature engine: rows filled slot by slot from keyed state (internal/features/engine.go), and
the replay that drives it (internal/features/replay.go). */
module Engine {
  import opened Numbers
  import opened Domain
  import opened Windows
  import opened Velocity
  import opened Rows
  import K = Keyed
  import X = Exact

  /** Where the engine's fields sit in the catalog's rows. */
  datatype Slots = Slots(
    amount: nat, distance: nat, region: nat, country: nat,
    product: nat, network: nat, cardType: nat, pEmail: nat, rEmail: nat, devType: nat, devInfo: nat,
    vel: seq<seq<nat>>, // per entity, in EntitySlots order
    risk: nat, extraNum: seq<nat>, extraStr: seq<nat>)
  {
    predicate NumAt(cat: Catalog, i: nat, f: NumField) { i < |cat.num| && cat.num[i] == f }
    predicate StrAt(cat: Catalog, i: nat, f: StrField) { i < |cat.str| && cat.str[i] == f }

    ghost predicate NumFit(cat: Catalog) {
      && NumAt(cat, amount, Amount) && NumAt(cat, distance, Distance) && NumAt(cat, region, Region)
      && NumAt(cat, country, Country) && NumAt(cat, risk, RiskScore)
      && (forall i :: 0 <= i < |cat.num| ==> (cat.num[i].Extra? <==> i in extraNum))
      && (forall i :: i in extraNum ==> i < |cat.num|)
    }

    ghost predicate StrFit(cat: Catalog) {
      && StrAt(cat, product, Product) && StrAt(cat, network, Network) && StrAt(cat, cardType, CardType)
      && StrAt(cat, pEmail, PurchaserEmail) && StrAt(cat, rEmail, RecipientEmail)
      && StrAt(cat, devType, DeviceType) && StrAt(cat, devInfo, DeviceInfo)
      && (forall i :: 0 <= i < |cat.str| ==> (cat.str[i].ExtraStr? <==> i in extraStr))
      && (forall i :: i in extraStr ==> i < |cat.str|)
    }

    ghost predicate EntityFit(cat: Catalog, e: Entity) {
      && |vel| == NUM_ENTITIES && |vel[e]| == Width(e)
      && forall k :: 0 <= k < Width(e) ==> NumAt(cat, vel[e][k], Velocity(e, k))
    }

    ghost predicate Fit(cat: Catalog) {
      NumFit(cat) && StrFit(cat) && forall e: Entity :: EntityFit(cat, e)
    }
  }

  method FindNum(cat: Catalog, f: NumField) returns (slot: nat)
    requires f in cat.num
    ensures slot < |cat.num| && cat.num[slot] == f
  {
    slot := 0;
    while cat.num[slot] != f
      invariant slot < |cat.num| && f in cat.num[slot..]
      decreases |cat.num| - slot
    {
      slot := slot + 1;
    }
  }

  method FindStr(cat: Catalog, f: StrField) returns (slot: nat)
    requires f in cat.str
    ensures slot < |cat.str| && cat.str[slot] == f
  {
    slot := 0;
    while cat.str[slot] != f
      invariant slot < |cat.str| && f in cat.str[slot..]
      decreases |cat.str| - slot
    {
      slot := slot + 1;
    }
  }

  method EntitySlots(cat: Catalog, e: Entity) returns (s: seq<nat>)
    requires Complete(cat)
    ensures |s| == Width(e)
    ensures forall k :: 0 <= k < Width(e) ==> s[k] < |cat.num| && cat.num[s[k]] == Velocity(e, k)
  {
    s := [];
    while |s| < Width(e)
      invariant |s| <= Width(e)
      invariant forall k :: 0 <= k < |s| ==> s[k] < |cat.num| && cat.num[s[k]] == Velocity(e, k)
    {
      assert KnownNum(Velocity(e, |s|));
      var slot := FindNum(cat, Velocity(e, |s|));
      s := s + [slot];
    }
  }

  method AllEntitySlots(cat: Catalog) returns (vel: seq<seq<nat>>)
    requires Complete(cat)
    ensures |vel| == NUM_ENTITIES
    ensures forall e: Entity :: |vel[e]| == Width(e)
    ensures forall e: Entity, k :: 0 <= k < Width(e) ==> vel[e][k] < |cat.num| && cat.num[vel[e][k]] == Velocity(e, k)
  {
    var card := EntitySlots(cat, CARD);
    var uid := EntitySlots(cat, UID);
    var device := EntitySlots(cat, DEVICE);
    var email := EntitySlots(cat, EMAIL);
    vel := [card, uid, device, email];
  }

  /** Which catalog slots are left for others to fill. */
  method ExtraSlots(cat: Catalog) returns (extraNum: seq<nat>, extraStr: seq<nat>)
    ensures forall i :: 0 <= i < |cat.num| ==> (cat.num[i].Extra? <==> i in extraNum)
    ensures forall i :: i in extraNum ==> i < |cat.num|
    ensures forall i :: 0 <= i < |cat.str| ==> (cat.str[i].ExtraStr? <==> i in extraStr)
    ensures forall i :: i in extraStr ==> i < |cat.str|
  {
    extraNum, extraStr := [], [];
    for i := 0 to |cat.num|
      invariant forall j :: 0 <= j < i ==> (cat.num[j].Extra? <==> j in extraNum)
      invariant forall j :: j in extraNum ==> j < i
    {
      if cat.num[i].Extra? { extraNum := extraNum + [i]; }
    }
    for i := 0 to |cat.str|
      invariant forall j :: 0 <= j < i ==> (cat.str[j].ExtraStr? <==> j in extraStr)
      invariant forall j :: j in extraStr ==> j < i
    {
      if cat.str[i].ExtraStr? { extraStr := extraStr + [i]; }
    }
  }

  /** Looks every produced field up in a complete catalog; the slots found fit it. */
  method NewSlots(cat: Catalog) returns (s: Slots)
    requires Complete(cat)
    ensures s.Fit(cat)
  {
    assert KnownNum(Amount) && KnownNum(Distance) && KnownNum(Region) && KnownNum(Country) && KnownNum(RiskScore);
    assert KnownStr(Product) && KnownStr(Network) && KnownStr(CardType) && KnownStr(PurchaserEmail)
        && KnownStr(RecipientEmail) && KnownStr(DeviceType) && KnownStr(DeviceInfo);
    var amount := FindNum(cat, Amount);
    var distance := FindNum(cat, Distance);
    var region := FindNum(cat, Region);
    var country := FindNum(cat, Country);
    var product := FindStr(cat, Product);
    var network := FindStr(cat, Network);
    var cardType := FindStr(cat, CardType);
    var pEmail := FindStr(cat, PurchaserEmail);
    var rEmail := FindStr(cat, RecipientEmail);
    var devType := FindStr(cat, DeviceType);
    var devInfo := FindStr(cat, DeviceInfo);
    var vel := AllEntitySlots(cat);
    var risk := FindNum(cat, RiskScore);
    var extraNum, extraStr := ExtraSlots(cat);
    s := Slots(amount, distance, region, country, product, network, cardType, pEmail, rEmail, devType, devInfo,
               vel, risk, extraNum, extraStr);
  }

  // ---- writing a row --------------------------------------------------------

  /** Entity e's first n features have been written, and nothing else has. */
  predicate Written(cat: Catalog, e: Entity, v: seq<Num>, n: nat, before: seq<Num>, after: seq<Num>)
    requires n <= |v|
  {
    && |before| == |after| == |cat.num|
    && forall i :: 0 <= i < |after| ==>
         after[i] == match cat.num[i]
                     case Velocity(d, k) => if d == e && k < n then v[k] else before[i]
                     case _ => before[i]
  }

  method PutFeature(cat: Catalog, e: Entity, k: nat, slot: nat, x: Num, num: array<Num>, ghost v: seq<Num>,
      ghost before: seq<Num>)
    requires Complete(cat) && slot < |cat.num| && cat.num[slot] == Velocity(e, k) && k < |v| && v[k] == x
    requires Written(cat, e, v, k, before, num[..])
    modifies num
    ensures Written(cat, e, v, k + 1, before, num[..])
  {
    num[slot] := x;
  }

  method FillWindows(cat: Catalog, slots: seq<nat>, e: Entity, a: Aggregates, num: array<Num>, ghost v: seq<Num>,
      ghost before: seq<Num>)
    requires Complete(cat) && num.Length == |cat.num| && |slots| == |v| == Width(e)
    requires forall k :: 0 <= k < Width(e) ==> slots[k] < |cat.num| && cat.num[slots[k]] == Velocity(e, k)
    requires forall w :: 0 <= w < NUM_WINDOWS ==>
              v[2 * w] == FromInt(a.count.At(w)) && v[2 * w + 1] == SumOf(a.milli.At(w))
    requires before == num[..]
    modifies num
    ensures Written(cat, e, v, 2 * NUM_WINDOWS, before, num[..])
  {
    hide Complete, Written, SumOf, FromInt;
    StartsWritten(cat, e, v, before);
    for w := 0 to NUM_WINDOWS
      invariant Written(cat, e, v, 2 * w, before, num[..])
    {
      PutFeature(cat, e, 2 * w, slots[2 * w], FromInt(a.count.At(w)), num, v, before);
      PutFeature(cat, e, 2 * w + 1, slots[2 * w + 1], SumOf(a.milli.At(w)), num, v, before);
    }
  }

  /** Leaves the features of a in the entity's slots and every other slot as it was. */
  method FillEntity(cat: Catalog, s: Slots, e: Entity, a: Aggregates, t: Txn, num: array<Num>)
    requires Complete(cat) && s.EntityFit(cat, e) && num.Length == |cat.num| && (TracksDistinct(e) ==> a.distinct.Some?)
    modifies num
    ensures Written(cat, e, Features(e, a, t), Width(e), old(num[..]), num[..])
  {
    hide Complete, Written, SumOf, FromInt, Div;
    ghost var v, before := Features(e, a, t), num[..];
    var slots := s.vel[e];
    FeaturesByName(e, a, t);
    hide Features;
    FillWindows(cat, slots, e, a, num, v, before);
    var mean, ratio := NaN, NaN;
    if a.count.week > 0 {
      mean := Div(SumOf(a.milli.week), FromInt(a.count.week));
      if Less(ZERO, mean) { ratio := Div(t.amount, mean); }
    }
    PutFeature(cat, e, 6, slots[6], mean, num, v, before);
    PutFeature(cat, e, 7, slots[7], ratio, num, v, before);
    var first, last := NaN, NaN;
    if a.seen {
      var now := Max(t.dt, a.last);
      first, last := FromInt(now - a.first), FromInt(now - a.last);
    }
    PutFeature(cat, e, 8, slots[8], first, num, v, before);
    PutFeature(cat, e, 9, slots[9], last, num, v, before);
    if TracksDistinct(e) {
      PutFeature(cat, e, 10, slots[10], FromInt(a.distinct.value), num, v, before);
    }
  }

  lemma FeaturesByName(e: Entity, a: Aggregates, t: Txn)
    ensures var v := Features(e, a, t);
            && |v| == Width(e)
            && (forall w :: 0 <= w < NUM_WINDOWS ==>
                  v[2 * w] == FromInt(a.count.At(w)) && v[2 * w + 1] == SumOf(a.milli.At(w)))
            && v[6] == MeanOf(a) && v[7] == RatioOf(a, t.amount)
            && v[8] == (if a.seen then FromInt(Max(t.dt, a.last) - a.first) else NaN)
            && v[9] == (if a.seen then FromInt(Max(t.dt, a.last) - a.last) else NaN)
            && (TracksDistinct(e) && a.distinct.Some? ==> v[10] == FromInt(a.distinct.value))
  {
    forall w | 0 <= w < NUM_WINDOWS
      ensures Features(e, a, t)[2 * w] == FromInt(a.count.At(w)) && Features(e, a, t)[2 * w + 1] == SumOf(a.milli.At(w))
    {
      WindowFeatures(a, t, w);
      hide FeatureAt;
    }
    hide FromInt, SumOf, MeanOf, RatioOf, PerWindow.At;
  }

  lemma WindowFeatures(a: Aggregates, t: Txn, w: nat)
    requires w < NUM_WINDOWS
    ensures FeatureAt(a, t, 2 * w) == FromInt(a.count.At(w)) && FeatureAt(a, t, 2 * w + 1) == SumOf(a.milli.At(w))
  {
    assert 2 * w / 2 == w && (2 * w + 1) / 2 == w;
    hide FromInt, SumOf, PerWindow.At;
  }

  lemma StartsWritten(cat: Catalog, e: Entity, v: seq<Num>, before: seq<Num>)
    requires |before| == |cat.num|
    ensures Written(cat, e, v, 0, before, before)
  {}

  /** Leaves NaN in the slots of an entity that the payment has no key for, and every other slot as it was. */
  method FillMissing(cat: Catalog, s: Slots, e: Entity, num: array<Num>)
    requires Complete(cat) && s.EntityFit(cat, e) && num.Length == |cat.num|
    modifies num
    ensures Written(cat, e, Missing(e), Width(e), old(num[..]), num[..])
  {
    ghost var v, before := Missing(e), num[..];
    StartsWritten(cat, e, v, before);
    for k := 0 to Width(e)
      invariant Written(cat, e, v, k, before, num[..])
    {
      PutFeature(cat, e, k, s.vel[e][k], NaN, num, v, before);
    }
  }

  /** Every slot that is not a velocity feature holds payment t's value, and those are untouched. */
  ghost predicate RawWritten(cat: Catalog, t: Txn, before: seq<Num>, after: seq<Num>) {
    && |before| == |after| == |cat.num|
    && forall i :: 0 <= i < |after| ==>
         after[i] == if cat.num[i].Velocity? then before[i] else NumValue(cat.num[i], t, [])
  }

  /** Exactly these slots have been written, with payment t's values. */
  ghost predicate NumsDone(cat: Catalog, t: Txn, done: set<nat>, before: seq<Num>, after: seq<Num>) {
    && |before| == |after| == |cat.num|
    && forall i :: 0 <= i < |after| ==> after[i] == if i in done then NumValue(cat.num[i], t, []) else before[i]
  }

  ghost predicate StrsDone(cat: Catalog, t: Txn, done: set<nat>, after: seq<string>) {
    |after| == |cat.str| && forall i :: 0 <= i < |after| && i in done ==> after[i] == StrValue(cat.str[i], t)
  }

  method PutNum(cat: Catalog, slot: nat, x: Num, num: array<Num>, ghost t: Txn, ghost done: set<nat>,
      ghost before: seq<Num>)
      returns (ghost more: set<nat>)
    requires slot < |cat.num| && x == NumValue(cat.num[slot], t, []) && NumsDone(cat, t, done, before, num[..])
    modifies num
    ensures more == done + {slot} && NumsDone(cat, t, more, before, num[..])
  {
    num[slot] := x;
    more := done + {slot};
  }

  method PutStr(cat: Catalog, slot: nat, x: string, str: array<string>, ghost t: Txn, ghost done: set<nat>)
      returns (ghost more: set<nat>)
    requires slot < |cat.str| && x == StrValue(cat.str[slot], t) && StrsDone(cat, t, done, str[..])
    modifies str
    ensures more == done + {slot} && StrsDone(cat, t, more, str[..])
  {
    str[slot] := x;
    more := done + {slot};
  }

  /** The number slots FillRaw writes are those that are not velocity features. */
  lemma NumSlots(cat: Catalog, s: Slots, i: nat)
    requires Complete(cat) && s.NumFit(cat) && i < |cat.num|
    ensures !cat.num[i].Velocity? <==> i in {s.amount, s.distance, s.region, s.country, s.risk} || i in s.extraNum
  {}

  lemma StrSlots(cat: Catalog, s: Slots, i: nat)
    requires Complete(cat) && s.StrFit(cat) && i < |cat.str|
    ensures i in {s.product, s.network, s.cardType, s.pEmail, s.rEmail, s.devType, s.devInfo} || i in s.extraStr
  {}

  ghost function SetOf(s: seq<nat>): set<nat> { set j | j in s }

  ghost predicate AreExtraNums(cat: Catalog, extra: seq<nat>) {
    forall i :: 0 <= i < |extra| ==> extra[i] < |cat.num| && cat.num[extra[i]].Extra?
  }

  ghost predicate AreExtraStrs(cat: Catalog, extra: seq<nat>) {
    forall i :: 0 <= i < |extra| ==> extra[i] < |cat.str| && cat.str[extra[i]].ExtraStr?
  }

  lemma ExtraNumsFit(cat: Catalog, s: Slots)
    requires s.NumFit(cat)
    ensures AreExtraNums(cat, s.extraNum)
  {
    forall i | 0 <= i < |s.extraNum| ensures s.extraNum[i] in s.extraNum {}
  }

  lemma ExtraStrsFit(cat: Catalog, s: Slots)
    requires s.StrFit(cat)
    ensures AreExtraStrs(cat, s.extraStr)
  {
    forall i | 0 <= i < |s.extraStr| ensures s.extraStr[i] in s.extraStr {}
  }

  method FillExtraNums(cat: Catalog, extra: seq<nat>, num: array<Num>, ghost t: Txn, ghost done: set<nat>,
      ghost before: seq<Num>)
      returns (ghost more: set<nat>)
    requires NumsDone(cat, t, done, before, num[..])
    requires AreExtraNums(cat, extra)
    modifies num
    ensures more == done + SetOf(extra) && NumsDone(cat, t, more, before, num[..])
  {
    hide NumsDone;
    more := done;
    for i := 0 to |extra|
      invariant NumsDone(cat, t, more, before, num[..]) && more == done + SetOf(extra[..i])
    {
      more := PutNum(cat, extra[i], NaN, num, t, more, before);
      assert extra[..i + 1] == extra[..i] + [extra[i]];
    }
    assert extra[..|extra|] == extra;
  }

  method FillNums(cat: Catalog, s: Slots, t: Txn, num: array<Num>)
    requires Complete(cat) && s.NumFit(cat) && num.Length == |cat.num|
    modifies num
    ensures RawWritten(cat, t, old(num[..]), num[..])
  {
    ghost var before, done: set<nat> := num[..], {};
    ExtraNumsFit(cat, s);
    assert NumsDone(cat, t, done, before, num[..]);
    hide NumsDone, RawWritten, Complete, AreExtraNums, AreExtraStrs, SetOf;
    done := PutNum(cat, s.amount, t.amount, num, t, done, before);
    done := PutNum(cat, s.distance, t.dist1, num, t, done, before);
    done := PutNum(cat, s.region, t.addr1, num, t, done, before);
    done := PutNum(cat, s.country, t.addr2, num, t, done, before);
    done := PutNum(cat, s.risk, NaN, num, t, done, before);
    done := FillExtraNums(cat, s.extraNum, num, t, done, before);
    AllNumsDone(cat, s, t, done, before, num[..]);
  }

  lemma AllNumsDone(cat: Catalog, s: Slots, t: Txn, done: set<nat>, before: seq<Num>, after: seq<Num>)
    requires Complete(cat) && s.NumFit(cat) && NumsDone(cat, t, done, before, after)
    requires done == {} + {s.amount} + {s.distance} + {s.region} + {s.country} + {s.risk} + SetOf(s.extraNum)
    ensures RawWritten(cat, t, before, after)
  {
    hide Complete, Slots.NumFit, NumValue;
    forall i: nat | i < |cat.num| ensures i in done <==> !cat.num[i].Velocity? { NumSlots(cat, s, i); }
  }

  method FillExtraStrs(cat: Catalog, extra: seq<nat>, str: array<string>, ghost t: Txn, ghost done: set<nat>)
      returns (ghost more: set<nat>)
    requires StrsDone(cat, t, done, str[..])
    requires AreExtraStrs(cat, extra)
    modifies str
    ensures more == done + SetOf(extra) && StrsDone(cat, t, more, str[..])
  {
    hide StrsDone;
    more := done;
    for i := 0 to |extra|
      invariant StrsDone(cat, t, more, str[..]) && more == done + SetOf(extra[..i])
    {
      more := PutStr(cat, extra[i], "", str, t, more);
      assert extra[..i + 1] == extra[..i] + [extra[i]];
    }
    assert extra[..|extra|] == extra;
  }

  method FillStrs(cat: Catalog, s: Slots, t: Txn, str: array<string>)
    requires Complete(cat) && s.StrFit(cat) && str.Length == |cat.str|
    modifies str
    ensures str[..] == StrsOf(cat, t)
  {
    ghost var done: set<nat> := {};
    ExtraStrsFit(cat, s);
    assert StrsDone(cat, t, done, str[..]);
    hide StrsDone, Complete, StrsOf, AreExtraNums, AreExtraStrs, SetOf;
    done := PutStr(cat, s.product, t.product, str, t, done);
    done := PutStr(cat, s.network, t.card4, str, t, done);
    done := PutStr(cat, s.cardType, t.card6, str, t, done);
    done := PutStr(cat, s.pEmail, t.pEmail, str, t, done);
    done := PutStr(cat, s.rEmail, t.rEmail, str, t, done);
    done := PutStr(cat, s.devType, t.deviceType, str, t, done);
    done := PutStr(cat, s.devInfo, t.deviceInfo, str, t, done);
    done := FillExtraStrs(cat, s.extraStr, str, t, done);
    AllStrsDone(cat, s, t, done, str[..]);
  }

  lemma AllStrsDone(cat: Catalog, s: Slots, t: Txn, done: set<nat>, after: seq<string>)
    requires Complete(cat) && s.StrFit(cat) && StrsDone(cat, t, done, after)
    requires done == {} + {s.product} + {s.network} + {s.cardType} + {s.pEmail} + {s.rEmail} + {s.devType} + {s.devInfo}
                     + SetOf(s.extraStr)
    ensures after == StrsOf(cat, t)
  {
    hide Complete, Slots.StrFit, StrValue;
    forall i: nat | i < |cat.str| ensures i in done { StrSlots(cat, s, i); }
  }

  // ---- the engine -----------------------------------------------------------

  /** The features of entity e of payment t, whose key's earlier payments are tr. */
  function PartOf(tr: Trail, e: Entity, t: Txn): seq<Num> {
    Features(e, Answer(Fold(tr), e, t.dt), t)
  }

  /** All of a payment's features, given what each key's earlier payments are. */
  function PartsOf(trails: Key -> Trail, t: Txn): seq<seq<Num>> {
    seq(NUM_ENTITIES, e requires 0 <= e < NUM_ENTITIES =>
      if KeyOf(t, e).Some? then PartOf(trails(KeyOf(t, e).value), e, t) else Missing(e))
  }

  /** Every slot but those of entities e and up holds its final value. */
  ghost predicate FilledTo(cat: Catalog, t: Txn, parts: seq<seq<Num>>, e: nat, num: seq<Num>) {
    && |num| == |cat.num|
    && forall i :: 0 <= i < |num| && !(cat.num[i].Velocity? && cat.num[i].entity >= e) ==>
         num[i] == NumValue(cat.num[i], t, parts)
  }

  lemma RawFills(cat: Catalog, t: Txn, parts: seq<seq<Num>>, before: seq<Num>, after: seq<Num>)
    requires RawWritten(cat, t, before, after)
    ensures FilledTo(cat, t, parts, 0, after)
  {}

  lemma EntityFills(cat: Catalog, t: Txn, parts: seq<seq<Num>>, e: Entity, before: seq<Num>, after: seq<Num>)
    requires Complete(cat) && |parts| == NUM_ENTITIES && |parts[e]| == Width(e)
    requires FilledTo(cat, t, parts, e, before) && Written(cat, e, parts[e], Width(e), before, after)
    ensures FilledTo(cat, t, parts, e + 1, after)
  {
    forall i | 0 <= i < |after| && cat.num[i].Velocity? ensures cat.num[i].k < Width(cat.num[i].entity) {
      assert KnownNum(cat.num[i]);
    }
  }

  lemma AllFilled(cat: Catalog, t: Txn, parts: seq<seq<Num>>, num: seq<Num>)
    requires FilledTo(cat, t, parts, NUM_ENTITIES, num)
    ensures num == NumsOf(cat, t, parts)
  {}

  ghost predicate HoldsAll(st: Store, trails: Key -> Trail, clock: int) {
    forall k :: Agrees(Get(st, k), trails(k), clock)
  }

  ghost function Extended(trails: Key -> Trail, k: Key, t: Txn): Key -> Trail {
    j => if j == k then Then(trails(k), t) else trails(j)
  }

  lemma HoldsAfter(st: Store, trails: Key -> Trail, clock: int, k: Key, t: Txn)
    requires HoldsAll(st, trails, clock) && clock <= t.dt
    ensures HoldsAll(st[k := Recorded(Get(st, k), EventOf(t))], Extended(trails, k, t), t.dt)
  {
    hide Fold, Live, Recorded, EventOf;
    var next := st[k := Recorded(Get(st, k), EventOf(t))];
    forall j ensures Agrees(Get(next, j), Extended(trails, k, t)(j), t.dt) {
      if j == k {
        RecordedAgrees(Get(st, k), trails(k), t, clock);
      } else {
        AgreesForever(Get(st, j), trails(j), j.entity, clock, t.dt);
        assert Get(next, j) == Get(st, j);
      }
    }
  }

  lemma HoldsEvicted(st: Store, trails: Key -> Trail, clock: int, now: int)
    requires HoldsAll(st, trails, clock) && clock <= now
    ensures HoldsAll(Evicted(st, now), trails, now)
  {
    hide Fold;
    forall j ensures Agrees(Get(Evicted(st, now), j), trails(j), now) {
      AgreesForever(Get(st, j), trails(j), j.entity, clock, now);
    }
  }

  method FillRaw(cat: Catalog, s: Slots, t: Txn, num: array<Num>, str: array<string>, ghost parts: seq<seq<Num>>)
    requires Complete(cat) && s.NumFit(cat) && s.StrFit(cat) && num.Length == |cat.num| && str.Length == |cat.str|
    modifies num, str
    ensures FilledTo(cat, t, parts, 0, num[..]) && str[..] == StrsOf(cat, t)
  {
    hide Complete, RawWritten, FilledTo, StrsOf;
    ghost var before := num[..];
    FillNums(cat, s, t, num);
    FillStrs(cat, s, t, str);
    RawFills(cat, t, parts, before, num[..]);
  }

  class Engine {
    const cat: Catalog
    const slots: Slots
    const keyed: K.Keyed
    const evictEvery: nat
    var updates: nat
    ghost var trails: Key -> Trail // the payments applied so far, by key
    ghost var clock: int           // the latest of their times
    ghost var orderly: bool        // they came in time order

    ghost predicate Valid()
      reads this, keyed, keyed.m.Values
    {
      && Complete(cat) && slots.Fit(cat) && keyed.Valid()
      && (orderly ==> HoldsAll(keyed.store, trails, clock))
    }

    constructor (cat: Catalog, evictEvery: nat, ghost from: int)
      requires Complete(cat)
      ensures Valid() && orderly && clock == from && trails == (k => Nobody) && this.cat == cat
      ensures fresh(keyed) && keyed.m == map[]
    {
      var s := NewSlots(cat);
      var st := new K.Keyed();
      this.cat, slots, keyed, this.evictEvery, updates := cat, s, st, evictEvery, 0;
      trails, clock, orderly := k => Nobody, from, true;
    }

    /** Reads and updates the payment's key for an entity and writes that entity's features. */
    method ApplyEntity(t: Txn, e: Entity, num: array<Num>)
      requires Valid() && KeyOf(t, e).Some? && num.Length == |cat.num|
      modifies this`trails, this`clock, this`orderly, keyed, keyed.m.Values, num
      ensures Valid() && fresh(keyed.m.Values - old(keyed.m.Values))
      ensures trails == Extended(old(trails), KeyOf(t, e).value, t)
      ensures orderly == (old(orderly) && old(clock) <= t.dt) && (orderly ==> clock == t.dt)
      ensures orderly ==>
        Written(cat, e, PartOf(old(trails)(KeyOf(t, e).value), e, t), Width(e), old(num[..]), num[..])
    {
      hide Complete, Answer, Recorded, Features, Fold, HoldsAll, Written, K.Keyed.Valid;
      var k := KeyOf(t, e).value;
      KeyNamesItsEntity(t, e);
      ghost var st := keyed.store;
      var a := keyed.ReadAdd(k, EventOf(t));
      AnswersTrackCards(Get(st, k), e, t.dt);
      if orderly && clock <= t.dt {
        HoldsAfter(st, trails, clock, k, t);
        AnswersAgree(st, trails, clock, k, t.dt);
      }
      orderly := orderly && clock <= t.dt;
      trails, clock := Extended(trails, k, t), t.dt;
      FillEntity(cat, slots, e, a, t, num);
    }

    /** Every evictEvery updates, sweeps idle keys. */
    method MaybeEvict(now: int)
      requires Valid() && (orderly ==> clock == now)
      modifies this`updates, keyed
      ensures Valid() && keyed.m.Values <= old(keyed.m.Values)
    {
      hide Complete, HoldsAll, Evicted, K.Keyed.Valid;
      if evictEvery > 0 {
        updates := updates + 1;
        if updates % evictEvery == 0 {
          if orderly { HoldsEvicted(keyed.store, trails, clock, now); }
          var _ := keyed.EvictIdle(now);
        }
      }
    }

    /** Reads the state back from a snapshot of a state that held these payments; the update count, which
    only times the sweeps, starts over. */
    method Restore(images: map<Key, X.Image>, ghost st: Store, ghost held: Key -> Trail, ghost at: int,
        ghost inOrder: bool)
      returns (ok: bool)
      requires Valid()
      modifies this`trails, this`clock, this`orderly, keyed
      ensures K.ImagesFit(images, st) && (inOrder ==> HoldsAll(st, held, at)) ==>
                ok && Valid() && trails == held && clock == at && orderly == inOrder
      ensures ok ==> fresh(keyed.m.Values)
    {
      hide HoldsAll, K.Keyed.Valid, K.ImagesFit;
      ok := keyed.Restore(images, st);
      trails, clock, orderly := held, at, inOrder;
    }

    /** One entity's share of scoring and updating. Without a key it does nothing and says so. */
    method ScoreAndUpdateEntity(t: Txn, e: Entity, num: array<Num>) returns (ok: bool)
      requires Valid() && num.Length == |cat.num|
      modifies this, keyed, keyed.m.Values, num
      ensures Valid() && fresh(keyed.m.Values - old(keyed.m.Values)) && ok == KeyOf(t, e).Some?
      ensures !ok ==> trails == old(trails) && orderly == old(orderly) && clock == old(clock) && num[..] == old(num[..])
      ensures ok ==>
        && trails == Extended(old(trails), KeyOf(t, e).value, t)
        && orderly == (old(orderly) && old(clock) <= t.dt) && (orderly ==> clock == t.dt)
        && (orderly ==> Written(cat, e, PartOf(old(trails)(KeyOf(t, e).value), e, t), Width(e), old(num[..]), num[..]))
    {
      hide Complete, HoldsAll, Written, PartOf, Extended, K.Keyed.Valid;
      if KeyOf(t, e).None? { return false; }
      ApplyEntity(t, e, num);
      MaybeEvict(t.dt);
      return true;
    }

    /** One entity's turn in ScoreAndUpdate, with or without a key. */
    method FillOne(t: Txn, e: Entity, num: array<Num>, ghost from: Key -> Trail)
      requires Valid() && num.Length == |cat.num| && (orderly ==> clock == t.dt)
      requires AppliedTo(from, t, e, trails)
      requires orderly ==> FilledTo(cat, t, PartsOf(from, t), e, num[..])
      modifies this`trails, this`clock, this`orderly, keyed, keyed.m.Values, num
      ensures Valid() && fresh(keyed.m.Values - old(keyed.m.Values))
      ensures orderly == old(orderly) && (orderly ==> clock == t.dt)
      ensures AppliedTo(from, t, e + 1, trails)
      ensures orderly ==> FilledTo(cat, t, PartsOf(from, t), e + 1, num[..])
    {
      hide Complete, HoldsAll, Written, FilledTo, PartOf, AppliedTo, K.Keyed.Valid;
      ghost var before, was := num[..], trails;
      if KeyOf(t, e).None? {
        FillMissing(cat, slots, e, num);
      } else {
        KeyNamesItsEntity(t, e);
        ApplyEntity(t, e, num);
      }
      NextApplied(from, t, e, was, trails);
      if orderly {
        PartWidth(from, t, e);
        EntityFills(cat, t, PartsOf(from, t), e, before, num[..]);
      }
    }

    /** Time moves on to the payment about to be applied. */
    ghost method Tick(now: int)
      requires Valid()
      modifies this`clock, this`orderly
      ensures Valid() && clock == now && orderly == (old(orderly) && old(clock) <= now)
    {
      hide Complete, HoldsAll, K.Keyed.Valid;
      if orderly && clock <= now { HoldsLater(keyed.store, trails, clock, now); }
      orderly := orderly && clock <= now;
      clock := now;
    }

    /** Writes the row a payment gets from the payments applied before it, and then applies it too. */
    method ScoreAndUpdate(t: Txn, num: array<Num>, str: array<string>)
      requires Valid() && num.Length == |cat.num| && str.Length == |cat.str|
      modifies this, keyed, keyed.m.Values, num, str
      ensures Valid() && fresh(keyed.m.Values - old(keyed.m.Values))
      ensures orderly == (old(orderly) && old(clock) <= t.dt) && (orderly ==> clock == t.dt)
      ensures AppliedTo(old(trails), t, NUM_ENTITIES, trails)
      ensures orderly ==> Row(num[..], str[..]) == RowOf(cat, t, PartsOf(old(trails), t))
    {
      hide Complete, HoldsAll, Written, FilledTo, PartsOf, NumsOf, StrsOf, RawWritten, AppliedTo, K.Keyed.Valid;
      NoneApplied(trails, t);
      ghost var from := trails;
      Tick(t.dt);
      FillRaw(cat, slots, t, num, str, PartsOf(from, t));
      for e := 0 to NUM_ENTITIES
        invariant Valid() && fresh(keyed.m.Values - old(keyed.m.Values)) && str[..] == StrsOf(cat, t)
        invariant orderly == (old(orderly) && old(clock) <= t.dt) && (orderly ==> clock == t.dt)
        invariant AppliedTo(from, t, e, trails)
        invariant orderly ==> FilledTo(cat, t, PartsOf(from, t), e, num[..])
      {
        FillOne(t, e, num, from);
      }
      if orderly { AllFilled(cat, t, PartsOf(from, t), num[..]); }
      MaybeEvict(t.dt);
    }
  }

  /** The payment has been applied to its keys of entities below e. */
  ghost predicate AppliedTo(from: Key -> Trail, t: Txn, e: nat, to: Key -> Trail) {
    forall k :: to(k) == if k.entity < e && KeyOf(t, k.entity) == Some(k) then Then(from(k), t) else from(k)
  }

  lemma NoneApplied(from: Key -> Trail, t: Txn)
    ensures AppliedTo(from, t, 0, from)
  {}

  lemma NextApplied(from: Key -> Trail, t: Txn, e: Entity, was: Key -> Trail, to: Key -> Trail)
    requires AppliedTo(from, t, e, was)
    requires to == if KeyOf(t, e).Some? then Extended(was, KeyOf(t, e).value, t) else was
    ensures AppliedTo(from, t, e + 1, to)
    ensures KeyOf(t, e).Some? ==> was(KeyOf(t, e).value) == from(KeyOf(t, e).value)
  {
    KeyNamesItsEntity(t, e);
    hide KeyOf;
    if KeyOf(t, e).Some? {
      var k := KeyOf(t, e).value;
      assert was(k) == if k.entity < e && KeyOf(t, k.entity) == Some(k) then Then(from(k), t) else from(k);
    }
    forall k ensures to(k) == if k.entity < e + 1 && KeyOf(t, k.entity) == Some(k) then Then(from(k), t) else from(k) {
      assert was(k) == if k.entity < e && KeyOf(t, k.entity) == Some(k) then Then(from(k), t) else from(k);
    }
  }

  lemma PartWidth(trails: Key -> Trail, t: Txn, e: Entity)
    ensures |PartsOf(trails, t)| == NUM_ENTITIES && |PartsOf(trails, t)[e]| == Width(e)
  {
    assert PartsOf(trails, t)[e] == if KeyOf(t, e).Some? then PartOf(trails(KeyOf(t, e).value), e, t) else Missing(e);
  }

  lemma HoldsLater(st: Store, trails: Key -> Trail, clock: int, now: int)
    requires HoldsAll(st, trails, clock) && clock <= now
    ensures HoldsAll(st, trails, now)
  {
    hide Fold;
    forall j ensures Agrees(Get(st, j), trails(j), now) { AgreesForever(Get(st, j), trails(j), j.entity, clock, now); }
  }

  lemma AnswersTrackCards(h: Option<History>, e: Entity, now: int)
    ensures TracksDistinct(e) ==> Answer(h, e, now).distinct.Some?
  {}

  lemma AnswersAgree(st: Store, trails: Key -> Trail, clock: int, k: Key, now: int)
    requires HoldsAll(st, trails, clock) && clock <= now
    ensures Answer(Get(st, k), k.entity, now) == Answer(Fold(trails(k)), k.entity, now)
  {
    AgreesForever(Get(st, k), trails(k), k.entity, clock, now);
  }
}
