/** The feature row: which slot holds which field, and what belongs there
(internal/schema/catalog.go, internal/features/engine.go). */
module Rows {
  import opened Numbers
  import opened Domain
  import opened Windows

  /** The fields of a catalog by what fills them; Velocity(e, k) is the k-th of entity e's features. */
  datatype NumField = Amount | Distance | Region | Country | Velocity(
    entity: Entity, k: nat) | RiskScore | Extra(name: string)
  datatype StrField =
    | Product | Network | CardType | PurchaserEmail | RecipientEmail | DeviceType | DeviceInfo | ExtraStr(name: string)

  /** Field i of each list occupies slot i. */
  datatype Catalog = Catalog(num: seq<NumField>, str: seq<StrField>)

  /** How many slots an entity fills: two a window, four more, and one for cards where those are tracked. */
  function Width(e: Entity): nat { 2 * NUM_WINDOWS + 4 + (if TracksDistinct(e) then 1 else 0) }

  predicate KnownNum(f: NumField) { if f.Velocity? then f.k < Width(f.entity) else !f.Extra? }
  predicate KnownStr(f: StrField) { !f.ExtraStr? }

  /** No field twice, as schema.New demands, and every field the engine fills, as NewEngine does. */
  ghost predicate Complete(cat: Catalog) {
    && (forall i, j :: 0 <= i < |cat.num| && 0 <= j < |cat.num| && cat.num[i] == cat.num[j] ==> i == j)
    && (forall i, j :: 0 <= i < |cat.str| && 0 <= j < |cat.str| && cat.str[i] == cat.str[j] ==> i == j)
    && (forall f :: KnownNum(f) ==> f in cat.num)
    && (forall f :: KnownStr(f) ==> f in cat.str)
    && (forall i :: 0 <= i < |cat.num| ==> KnownNum(cat.num[i]) || cat.num[i].Extra?)
  }

  datatype Row = Row(num: seq<Num>, str: seq<string>)

  // ---- one entity's features ------------------------------------------------

  function SumOf(milli: int): Num { Fin(milli as real / 1000.0) }

  function MeanOf(a: Aggregates): Num {
    if a.count.week > 0 then Div(SumOf(a.milli.week), FromInt(a.count.week)) else NaN
  }

  function RatioOf(a: Aggregates, amount: Num): Num {
    var mean := MeanOf(a);
    if Less(ZERO, mean) then Div(amount, mean) else NaN
  }

  /** The k-th of an entity's features of payment t. */
  function FeatureAt(a: Aggregates, t: Txn, k: nat): Num {
    if k < 2 * NUM_WINDOWS then
      if k % 2 == 0 then FromInt(a.count.At(k / 2)) else SumOf(a.milli.At(k / 2))
    else if k == 6 then MeanOf(a)
    else if k == 7 then RatioOf(a, t.amount)
    else if k == 8 then if a.seen then FromInt(Max(t.dt, a.last) - a.first) else NaN
    else if k == 9 then if a.seen then FromInt(Max(t.dt, a.last) - a.last) else NaN
    else if a.distinct.Some? then FromInt(a.distinct.value) else NaN
  }

  /** Entity e's features, in EntitySlots order. */
  function Features(e: Entity, a: Aggregates, t: Txn): seq<Num> {
    seq(Width(e), k requires 0 <= k => FeatureAt(a, t, k))
  }

  function Missing(e: Entity): seq<Num> { seq(Width(e), k => NaN) }

  // ---- the whole row -----------------------------------------------------------

  /** What a number field holds for payment t whose entities have these features. */
  function NumValue(f: NumField, t: Txn, parts: seq<seq<Num>>): Num {
    match f
    case Amount => t.amount
    case Distance => t.dist1
    case Region => t.addr1
    case Country => t.addr2
    case Velocity(e, k) => if e < |parts| && k < |parts[e]| then parts[e][k] else NaN
    case RiskScore => NaN
    case Extra(_) => NaN
  }

  function StrValue(f: StrField, t: Txn): string {
    match f
    case Product => t.product
    case Network => t.card4
    case CardType => t.card6
    case PurchaserEmail => t.pEmail
    case RecipientEmail => t.rEmail
    case DeviceType => t.deviceType
    case DeviceInfo => t.deviceInfo
    case ExtraStr(_) => ""
  }

  function NumsOf(cat: Catalog, t: Txn, parts: seq<seq<Num>>): seq<Num> {
    seq(|cat.num|, i requires 0 <= i < |cat.num| => NumValue(cat.num[i], t, parts))
  }

  function StrsOf(cat: Catalog, t: Txn): seq<string> {
    seq(|cat.str|, i requires 0 <= i < |cat.str| => StrValue(cat.str[i], t))
  }

  function RowOf(cat: Catalog, t: Txn, parts: seq<seq<Num>>): Row { Row(NumsOf(cat, t, parts), StrsOf(cat, t)) }
}
