/** Payments, their place in event time, and the entity keys and events derived from them
(internal/data/txn.go, internal/stream/wire.go, internal/features/key.go, internal/features/state.go). */
module Domain {
  import opened Numbers

  datatype Option<+T> = None | Some(value: T)

  /** Event time, ties broken by transaction id. */
  datatype Pos = Pos(dt: int, id: int) {
    predicate Less(q: Pos) {
      if dt != q.dt then dt < q.dt else id < q.id
    }
    predicate AtMost(q: Pos) { this == q || Less(q) }
  }

  const MIN_INT64 := -0x8000_0000_0000_0000
  const MAX_INT64 := 0x7fff_ffff_ffff_ffff
  const MIN_POS := Pos(MIN_INT64, MIN_INT64)
  const MAX_POS := Pos(MAX_INT64, MAX_INT64)

  datatype Txn = Txn(
    id: int, dt: int, amount: Num, product: string,
    card1: Num, card4: string, card6: string,
    addr1: Num, addr2: Num, dist1: Num,
    pEmail: string, rEmail: string, deviceType: string, deviceInfo: string, d1: Num)

  function PosOf(t: Txn): Pos { Pos(t.dt, t.id) }

  // ---- entities and keys ------------------------------------------------

  const NUM_ENTITIES: nat := 4
  type Entity = e: nat | e < NUM_ENTITIES
  const CARD: Entity := 0
  const UID: Entity := 1
  const DEVICE: Entity := 2
  const EMAIL: Entity := 3

  predicate TracksDistinct(e: Entity) { e == DEVICE || e == EMAIL }

  datatype Key = Key(entity: Entity, num: seq<real>, str: string)

  const SECONDS_PER_DAY := 86400

  function FloorDiv(a: int, b: int): int
    requires b > 0
  {
    a / b  // Dafny's division by a positive number already rounds toward minus infinity
  }

  function KeyOf(t: Txn, e: Entity): Option<Key> {
    if e == CARD then
      if t.card1.Fin? then Some(Key(CARD, [t.card1.v], "")) else None
    else if e == UID then
      if t.card1.Fin? && t.addr1.Fin? && t.d1.Fin?
      then Some(Key(UID, [t.card1.v, t.addr1.v, (FloorDiv(t.dt, SECONDS_PER_DAY) as real) - t.d1.v], ""))
      else None
    else if e == DEVICE then
      if t.deviceInfo != "" then Some(Key(DEVICE, [], t.deviceInfo)) else None
    else
      if t.pEmail != "" then Some(Key(EMAIL, [], t.pEmail)) else None
  }

  lemma KeyNamesItsEntity(t: Txn, e: Entity)
    ensures KeyOf(t, e).Some? ==> KeyOf(t, e).value.entity == e
  {}

  // ---- events -----------------------------------------------------------

  /** What a velocity state remembers of one payment; a NaN card is NoCard. */
  datatype Event = Event(time: int, milli: int, card: Num)

  /** Rounds half away from zero, as math.Round does. */
  function Round(r: real): int {
    if r >= 0.0 then (r + 0.5).Floor else -((0.5 - r).Floor)
  }

  function ToMilli(amount: Num): int {
    if amount.Fin? then Round(amount.v * 1000.0) else 0
  }

  function EventOf(t: Txn): Event {
    Event(t.dt, ToMilli(t.amount), if t.card1.Fin? then t.card1 else NaN)
  }
}
