/** The idempotency store itself: entries by key and in the order they were claimed, expiry, eviction and
snapshots, proved against the map of answers the protocol is about (internal/service/idempotency.go). */
module AnswerStore {
  import opened Domain
  import opened Idempotency

  /** An entry; it stays with its owner when the store has dropped it. */
  datatype Item = Item(key: string, hash: nat, made: int, body: string, ready: bool)

  /** A finished entry as a snapshot keeps it. */
  datatype Record = Record(key: string, hash: nat, made: int, body: string)

  /** What a claim finds: another request's claim to wait for, a stored answer, the key used for another
  body, or a claim of its own. */
  datatype Found = MustWait(owner: nat) | Answer(body: string) | Reused | Owned

  function FoundIn(e: Entry, hash: nat): Found {
    match e
    case InFlight(owner) => MustWait(owner)
    case Ready(h, body) => if h == hash then Answer(body) else Reused
  }

  function EntryOf(id: nat, x: Item): Entry { if x.ready then Ready(x.hash, x.body) else InFlight(id) }

  function RecordOf(x: Item): Record { Record(x.key, x.hash, x.made, x.body) }

  /** The order holds each entry of the index once, and nothing else. */
  ghost predicate Indexed(items: map<nat, Item>, byKey: map<string, nat>, order: seq<nat>) {
    && (forall i, j :: 0 <= i < j < |order| ==> order[i] != order[j])
    && (forall x :: x in order ==> x in items && items[x].key in byKey && byKey[items[x].key] == x)
    && (forall k :: k in byKey ==> byKey[k] in order && byKey[k] in items && items[byKey[k]].key == k)
  }

  /** What the store answers with, key by key. */
  ghost function EntriesOf(items: map<nat, Item>, byKey: map<string, nat>): map<string, Entry> {
    map k | k in byKey && byKey[k] in items :: EntryOf(byKey[k], items[byKey[k]])
  }

  predicate Stale(x: Item, now: int, ttl: int) { x.ready && now - x.made >= ttl }

  function Without(order: seq<nat>, id: nat): seq<nat> {
    if order == [] then [] else if order[0] == id then order[1..] else [order[0]] + Without(order[1..], id)
  }

  lemma {:induction false} WithoutMeans(order: seq<nat>, id: nat)
    requires forall i, j :: 0 <= i < j < |order| ==> order[i] != order[j]
    ensures var r := Without(order, id);
            (forall x :: x in r <==> x in order && x != id) && (forall i, j :: 0 <= i < j < |r| ==> r[i] != r[j])
    ensures |Without(order, id)| <= |order|
  {
    if order != [] {
      WithoutMeans(order[1..], id);
      assert order[0] !in order[1..];
    }
  }

  lemma {:induction false} Shorter(order: seq<nat>, id: nat)
    requires id in order
    ensures |Without(order, id)| == |order| - 1
  {
    if order[0] != id { Shorter(order[1..], id); }
  }

  /** Dropping an entry takes its key out of the index and leaves everything else. */
  lemma Drops(items: map<nat, Item>, byKey: map<string, nat>, order: seq<nat>, id: nat)
    requires Indexed(items, byKey, order) && id in order
    ensures var left := byKey - {items[id].key};
            Indexed(items, left, Without(order, id))
              && EntriesOf(items, left) == EntriesOf(items, byKey) - {items[id].key}
    ensures |Without(order, id)| == |order| - 1
  {
    hide Without, EntryOf;
    var key, left := items[id].key, byKey - {items[id].key};
    WithoutMeans(order, id);
    Shorter(order, id);
    forall x | x in Without(order, id) ensures x in items && items[x].key in left && left[items[x].key] == x {}
    forall k | k in left ensures left[k] in Without(order, id) && left[k] in items && items[left[k]].key == k {}
    forall k | k in byKey ensures byKey[k] in items {}
    assert EntriesOf(items, left) == EntriesOf(items, byKey) - {key};
  }

  lemma HaveItems(items: map<nat, Item>, byKey: map<string, nat>, order: seq<nat>)
    requires Indexed(items, byKey, order)
    ensures forall x :: x in order ==> x in items && items[x].key in byKey
  {}

  /** A new entry at the end of the order. */
  lemma Joins(items: map<nat, Item>, byKey: map<string, nat>, order: seq<nat>, id: nat, x: Item)
    requires Indexed(items, byKey, order) && id !in items && x.key !in byKey
    ensures var more := items[id := x];
            && Indexed(more, byKey[x.key := id], order + [id])
            && EntriesOf(more, byKey[x.key := id]) == EntriesOf(items, byKey)[x.key := EntryOf(id, x)]
  {
    hide EntryOf, EntriesOf;
    var more, keys, after := items[id := x], byKey[x.key := id], order + [id];
    forall y | y in after ensures y in more && more[y].key in keys && keys[more[y].key] == y {
      if y != id { assert y in order; }
    }
    forall k | k in keys ensures keys[k] in after && keys[k] in more && more[keys[k]].key == k {
      if k == x.key { assert after[|order|] == id; } else { assert byKey[k] in order; }
    }
    assert id !in order;
    JoinsEntries(items, byKey, order, id, x);
  }

  lemma JoinsEntries(items: map<nat, Item>, byKey: map<string, nat>, order: seq<nat>, id: nat, x: Item)
    requires Indexed(items, byKey, order) && id !in items && x.key !in byKey
    ensures EntriesOf(items[id := x], byKey[x.key := id]) == EntriesOf(items, byKey)[x.key := EntryOf(id, x)]
  {
    hide EntryOf;
    forall k | k in byKey ensures byKey[k] in items && byKey[k] != id {}
  }

  /** An entry gets its answer. */
  lemma Settles(items: map<nat, Item>, byKey: map<string, nat>, order: seq<nat>, id: nat, body: string)
    requires Indexed(items, byKey, order) && id in items && !items[id].ready
    ensures var x := items[id];
            var more, old_ := items[id := x.(body := body, ready := true)], EntriesOf(items, byKey);
            && Indexed(more, byKey, order)
            && EntriesOf(more, byKey) == if x.key in old_ && old_[x.key] == InFlight(id)
              then old_[x.key := Ready(x.hash, body)] else old_
  {
    var x := items[id];
    var more := items[id := x.(body := body, ready := true)];
    forall k | k in byKey ensures byKey[k] == id ==> k == x.key {}
    if x.key in byKey && byKey[x.key] == id {
      assert EntriesOf(more, byKey) == EntriesOf(items, byKey)[x.key := Ready(x.hash, body)];
    } else {
      assert EntriesOf(more, byKey) == EntriesOf(items, byKey);
    }
  }

  // ---- records --------------------------------------------------------------------------------

  /** The records list these answers, each key once. */
  ghost predicate Lists(recs: seq<Record>, m: map<string, Entry>) {
    && (forall i, j :: 0 <= i < j < |recs| ==> recs[i].key != recs[j].key)
    && (forall i :: 0 <= i < |recs| ==> recs[i].key in m && m[recs[i].key] == Ready(recs[i].hash, recs[i].body))
    && (forall k :: k in m ==> exists i :: 0 <= i < |recs| && recs[i].key == k)
  }

  /** The records are those of the ready ones among the first n entries. */
  ghost predicate ListsFirst(recs: seq<Record>, items: map<nat, Item>, order: seq<nat>, n: nat)
    requires n <= |order|
  {
    && (forall i :: 0 <= i < n ==> order[i] in items)
    && (forall i, j :: 0 <= i < j < |recs| ==> recs[i].key != recs[j].key)
    && (forall r :: r in recs ==> exists i :: 0 <= i < n && items[order[i]].ready && r == RecordOf(items[order[i]]))
    && (forall i :: 0 <= i < n && items[order[i]].ready ==> RecordOf(items[order[i]]) in recs)
  }

  lemma ListsNext(recs: seq<Record>, items: map<nat, Item>, byKey: map<string, nat>, order: seq<nat>, n: nat)
    requires Indexed(items, byKey, order) && n < |order| && ListsFirst(recs, items, order, n)
    ensures order[n] in items
    ensures var x := items[order[n]]; ListsFirst(if x.ready then recs + [RecordOf(x)] else recs, items, order, n + 1)
  {
    var x := items[order[n]];
    assert order[n] in order;
    forall r | r in recs ensures r.key != x.key {
      var i :| 0 <= i < n && items[order[i]].ready && r == RecordOf(items[order[i]]);
      assert order[i] in order && order[i] != order[n];
    }
  }

  lemma ListsAll(recs: seq<Record>, items: map<nat, Item>, byKey: map<string, nat>, order: seq<nat>)
    requires Indexed(items, byKey, order) && ListsFirst(recs, items, order, |order|)
    ensures Lists(recs, ReadyOnly(EntriesOf(items, byKey)))
  {
    var m := ReadyOnly(EntriesOf(items, byKey));
    forall i | 0 <= i < |recs| ensures recs[i].key in m && m[recs[i].key] == Ready(recs[i].hash, recs[i].body) {
      assert recs[i] in recs;
      var j :| 0 <= j < |order| && items[order[j]].ready && recs[i] == RecordOf(items[order[j]]);
      assert order[j] in order;
    }
    forall k | k in m ensures exists i :: 0 <= i < |recs| && recs[i].key == k {
      var id := byKey[k];
      var j :| 0 <= j < |order| && order[j] == id;
      assert RecordOf(items[order[j]]) in recs;
    }
  }

  /** The finished entries in the order they were claimed. */
  function ReadyRecords(items: map<nat, Item>, order: seq<nat>): seq<Record> {
    if order == [] then []
    else
      var id := order[|order| - 1];
      ReadyRecords(items, order[..|order| - 1]) + if id in items && items[id].ready then [RecordOf(items[id])] else []
  }

  method Collect(items: map<nat, Item>, ghost byKey: map<string, nat>, order: seq<nat>) returns (recs: seq<Record>)
    requires Indexed(items, byKey, order)
    ensures recs == ReadyRecords(items, order) && |recs| <= |order|
    ensures Lists(recs, ReadyOnly(EntriesOf(items, byKey)))
  {
    hide Indexed, ListsFirst, ReadyRecords, RecordOf;
    NoneListed(items, order);
    recs := [];
    for i := 0 to |order|
      invariant |recs| <= i && ListsFirst(recs, items, order, i) && recs == ReadyRecords(items, order[..i])
    {
      ListsNext(recs, items, byKey, order, i);
      ReadyNext(items, order, i);
      var x := items[order[i]];
      if x.ready { recs := recs + [RecordOf(x)]; }
    }
    assert order[..|order|] == order;
    ListsAll(recs, items, byKey, order);
  }

  lemma NoneListed(items: map<nat, Item>, order: seq<nat>)
    ensures ListsFirst([], items, order, 0) && ReadyRecords(items, order[..0]) == []
  {}

  lemma ReadyNext(items: map<nat, Item>, order: seq<nat>, n: nat)
    requires n < |order| && order[n] in items
    ensures var x := items[order[n]];
            ReadyRecords(items, order[..n + 1])
            == ReadyRecords(items, order[..n]) + if x.ready then [RecordOf(x)] else []
  {
    assert order[..n + 1][..n] == order[..n];
  }

  /** What is left of an order when its front goes. */
  predicate Suffix(left: seq<nat>, order: seq<nat>) { |left| <= |order| && left == order[|order| - |left|..] }

  lemma Entire(order: seq<nat>)
    ensures Suffix(order, order)
  {}

  lemma FrontGoes(left: seq<nat>, order: seq<nat>)
    requires left != [] && Suffix(left, order)
    ensures Without(left, left[0]) == left[1..] && Suffix(left[1..], order)
  {}

  /** What the entries are, key by key. */
  lemma Keeps(items: map<nat, Item>, byKey: map<string, nat>, order: seq<nat>)
    requires Indexed(items, byKey, order)
    ensures var m := EntriesOf(items, byKey);
            m.Keys == byKey.Keys && forall k :: k in byKey ==>
              byKey[k] in items && items[byKey[k]].key == k && m[k] == EntryOf(byKey[k], items[byKey[k]])
  {}

  lemma StaleLeave(items: map<nat, Item>, before: map<string, nat>, after: map<string, nat>, earlier: seq<nat>,
      order: seq<nat>, now: int, ttl: int)
    requires Indexed(items, before, earlier) && Indexed(items, after, order)
    requires forall k :: k in after ==> k in before && after[k] == before[k]
    requires forall k :: k in before && k !in after ==> before[k] in items && Stale(items[before[k]], now, ttl)
    ensures var was, kept := EntriesOf(items, before), EntriesOf(items, after);
            && kept.Keys <= was.Keys && (forall k :: k in kept ==> kept[k] == was[k])
            && forall k :: k in was && k !in kept ==> was[k].Ready?
  {
    Keeps(items, before, earlier);
    Keeps(items, after, order);
    hide Indexed, EntriesOf;
  }

  lemma Keys(items: map<nat, Item>, byKey: map<string, nat>, order: seq<nat>)
    requires Indexed(items, byKey, order)
    ensures EntriesOf(items, byKey).Keys == byKey.Keys
  {}

  /** The answers are those of the young ones among the first n records. */
  ghost predicate Filled(recs: seq<Record>, n: nat, now: int, ttl: int, m: map<string, Entry>)
    requires n <= |recs|
  {
    && (forall i :: 0 <= i < n && now - recs[i].made < ttl ==>
          recs[i].key in m && m[recs[i].key] == Ready(recs[i].hash, recs[i].body))
    && (forall k :: k in m ==> exists i :: 0 <= i < n && now - recs[i].made < ttl && recs[i].key == k)
  }

  lemma FillsNext(recs: seq<Record>, n: nat, now: int, ttl: int, m: map<string, Entry>)
    requires n < |recs| && Filled(recs, n, now, ttl, m)
    requires forall i, j :: 0 <= i < j < |recs| ==> recs[i].key != recs[j].key
    ensures recs[n].key !in m
    ensures var r := recs[n];
            Filled(recs, n + 1, now, ttl, if now - r.made < ttl then m[r.key := Ready(r.hash, r.body)] else m)
  {
    var r := recs[n];
    var more := if now - r.made < ttl then m[r.key := Ready(r.hash, r.body)] else m;
    forall k | k in more ensures exists i :: 0 <= i < n + 1 && now - recs[i].made < ttl && recs[i].key == k {
      if k in m {
        var i :| 0 <= i < n && now - recs[i].made < ttl && recs[i].key == k;
      }
    }
  }

  /** Every answer is that of a young one among the first n records. */
  ghost predicate Among(recs: seq<Record>, n: nat, now: int, ttl: int, m: map<string, Entry>)
    requires n <= |recs|
  {
    forall k :: k in m ==>
      exists i :: 0 <= i < n && now - recs[i].made < ttl && recs[i].key == k
        && m[k] == Ready(recs[i].hash, recs[i].body)
  }

  lemma NotAmong(recs: seq<Record>, n: nat, now: int, ttl: int, m: map<string, Entry>)
    requires n < |recs| && Among(recs, n, now, ttl, m)
    requires forall i, j :: 0 <= i < j < |recs| ==> recs[i].key != recs[j].key
    ensures recs[n].key !in m
  {}

  /** So it stays when the next one is added, and when any is dropped. */
  lemma AmongNext(recs: seq<Record>, n: nat, now: int, ttl: int, m: map<string, Entry>, left: map<string, Entry>)
    requires n < |recs| && Among(recs, n, now, ttl, m)
    requires var r := recs[n];
             forall k :: k in left ==>
               (k in m && left[k] == m[k]) || (now - r.made < ttl && k == r.key && left[k] == Ready(r.hash, r.body))
    ensures Among(recs, n + 1, now, ttl, left)
  {
    var r := recs[n];
    forall k | k in left
      ensures exists i ::
                0 <= i < n + 1 && now - recs[i].made < ttl && recs[i].key == k
                  && left[k] == Ready(recs[i].hash, recs[i].body)
    {
      if k in m && left[k] == m[k] {
        var i :| 0 <= i < n && now - recs[i].made < ttl && recs[i].key == k
          && m[k] == Ready(recs[i].hash, recs[i].body);
      } else {
        assert recs[n].key == k;
      }
    }
  }

  lemma Empty(recs: seq<Record>, now: int, ttl: int)
    ensures Indexed(map[], map[], []) && EntriesOf(map[], map[]) == map[]
    ensures Among(recs, 0, now, ttl, map[]) && Filled(recs, 0, now, ttl, map[])
  {}

  lemma DistinctKeys(recs: seq<Record>, m: map<string, Entry>)
    requires Lists(recs, m)
    ensures forall i, j :: 0 <= i < j < |recs| ==> recs[i].key != recs[j].key
  {}

  lemma AllFilled(recs: seq<Record>, now: int, ttl: int, got: map<string, Entry>, m: map<string, Entry>)
    requires Filled(recs, |recs|, now, ttl, got) && Lists(recs, m)
    ensures (forall i :: 0 <= i < |recs| ==> now - recs[i].made < ttl) ==> got == m
  {
    if forall i :: 0 <= i < |recs| ==> now - recs[i].made < ttl {
      forall k | k in got ensures k in m && m[k] == got[k] {
        var i :| 0 <= i < |recs| && recs[i].key == k;
      }
      forall k | k in m ensures k in got {
        var i :| 0 <= i < |recs| && recs[i].key == k;
      }
    }
  }

  class IdemStore {
    const ttl: int
    const maxEntries: nat
    var items: map<nat, Item>
    var byKey: map<string, nat>
    var order: seq<nat>

    ghost predicate Valid()
      reads this
    {
      maxEntries > 0 && Indexed(items, byKey, order) && |order| <= maxEntries
    }

    ghost function Entries(): map<string, Entry>
      reads this
    {
      EntriesOf(items, byKey)
    }

    /** Nothing is to expire: the oldest entry, if any, is in flight or young. */
    predicate Fresh(now: int)
      requires Indexed(items, byKey, order)
      reads this
    {
      order != [] ==> !Stale(items[order[0]], now, ttl)
    }

    constructor (ttl: int, maxEntries: nat)
      requires maxEntries > 0
      ensures Valid() && Entries() == map[] && this.ttl == ttl && this.maxEntries == maxEntries
    {
      this.ttl, this.maxEntries := ttl, maxEntries;
      items, byKey, order := map[], map[], [];
    }

    /** Drops an entry. */
    method Remove(id: nat)
      requires Indexed(items, byKey, order) && id in order
      modifies this`byKey, this`order
      ensures Indexed(items, byKey, order) && order == Without(old(order), id) && |order| == |old(order)| - 1
      ensures byKey == old(byKey) - {items[id].key} && Entries() == old(Entries()) - {items[id].key}
    {
      Drops(items, byKey, order, id);
      byKey := byKey - {items[id].key};
      order := Without(order, id);
    }

    /** Drops stale entries from the front, up to the first that is in flight or young: what is dropped is
    stale, and a claim in flight stays however old it is. */
    method Expire(now: int)
      requires Valid()
      modifies this`byKey, this`order
      ensures Valid() && Suffix(order, old(order)) && Fresh(now)
      ensures old(Fresh(now)) ==> byKey == old(byKey) && order == old(order)
      ensures forall k :: k in byKey ==> k in old(byKey) && byKey[k] == old(byKey)[k]
      ensures forall k :: k in old(byKey) && k !in byKey ==>
                old(byKey)[k] in items && Stale(items[old(byKey)[k]], now, ttl)
      ensures order != [] ==> !(items[order[0]].ready && now - items[order[0]].made >= ttl)
      ensures forall k :: k in old(byKey) && k !in byKey ==>
                var x := items[old(byKey)[k]]; x.ready && now - x.made >= ttl
    {
      hide Suffix, Without;
      Entire(order);
      while order != [] && Stale(items[order[0]], now, ttl)
        invariant Valid() && Suffix(order, old(order))
        invariant old(Fresh(now)) ==> byKey == old(byKey) && order == old(order)
        invariant forall k :: k in byKey ==> k in old(byKey) && byKey[k] == old(byKey)[k]
        invariant forall k :: k in old(byKey) && k !in byKey ==>
                  old(byKey)[k] in items && Stale(items[old(byKey)[k]], now, ttl)
        decreases |order|
      {
        FrontGoes(order, old(order));
        Remove(order[0]);
      }
    }

    /** Puts a new entry at the end, dropping the oldest when there are too many. */
    method Insert(id: nat, x: Item)
      requires Valid() && id !in items && x.key !in byKey
      modifies this
      ensures Valid() && items == old(items)[id := x] && forall y :: y in old(order) ==> y in old(items)
      ensures |old(order)| < maxEntries ==>
                order == old(order) + [id] && Entries() == old(Entries())[x.key := EntryOf(id, x)]
      ensures |old(order)| == maxEntries ==>
                && old(items)[old(order[0])].key != x.key && |order| == maxEntries
                && Entries() == old(Entries())[x.key := EntryOf(id, x)] - {old(items)[old(order[0])].key}
    {
      hide Indexed, EntriesOf, Without;
      Joins(items, byKey, order, id, x);
      HaveItems(items, byKey, order);
      items, byKey, order := items[id := x], byKey[x.key := id], order + [id];
      ghost var joined, oldest := Entries(), order[0];
      HaveItems(items, byKey, order);
      while |order| > maxEntries
        invariant Indexed(items, byKey, order) && items == old(items)[id := x]
        invariant if |old(order)| < maxEntries || |order| > maxEntries
                  then order == old(order) + [id] && Entries() == joined
                  else |order| == maxEntries && Entries() == joined - {items[oldest].key}
        decreases |order|
      {
        Remove(order[0]);
      }
    }

    /** Claims a key: a stored answer for the same body, the error for another one, another request's claim to
    wait for, or a new claim. */
    method Claim(key: string, hash: nat, now: int, id: nat) returns (found: Found, ghost kept: map<string, Entry>)
      requires Valid() && id !in items
      modifies this
      ensures Valid()
      ensures kept.Keys <= old(Entries()).Keys && forall k :: k in kept ==> kept[k] == old(Entries())[k]
      ensures forall k :: k in old(Entries()) && k !in kept ==> old(Entries())[k].Ready?
      ensures old(Fresh(now)) ==> kept == old(Entries())
      ensures found.Owned? <==> key !in kept
      ensures key in kept ==> Entries() == kept && found == FoundIn(kept[key], hash)
      ensures found.Answer? <==> key in kept && kept[key].Ready? && kept[key].hash == hash
      ensures found.Answer? ==> kept[key] == Ready(hash, found.body)
      ensures found.Reused? <==> key in kept && kept[key].Ready? && kept[key].hash != hash
      ensures found.MustWait? <==> key in kept && kept[key].InFlight?
      ensures found.Answer? || found.Reused? ==>
                && key in old(byKey) && old(byKey)[key] in old(items)
                && var x := old(items)[old(byKey)[key]];
                   x.key == key && x.ready && (found.Answer? <==> x.hash == hash)
                     && (found.Answer? ==> found.body == x.body)
      ensures found.Owned? && old(Fresh(now)) && |old(order)| < maxEntries ==> Entries() == kept[key := InFlight(id)]
      ensures found.Owned? ==> key in Entries() && Entries()[key] == InFlight(id)
      ensures items == if found.Owned? then old(items)[id := Item(key, hash, now, "", false)] else old(items)
      ensures found.Owned? ==> forall k :: k in Entries() && k != key ==> k in kept && Entries()[k] == kept[k]
    {
      hide Indexed, EntriesOf, Stale;
      ghost var before, earlier := byKey, order;
      Expire(now);
      kept := Entries();
      StaleLeave(items, before, byKey, earlier, order, now, ttl);
      Keeps(items, byKey, order);
      if key in byKey {
        var x := items[byKey[key]];
        found := if !x.ready then MustWait(byKey[key]) else if x.hash != hash then Reused else Answer(x.body);
      } else {
        Insert(id, Item(key, hash, now, "", false));
        found := Owned;
      }
    }

    /** Stores the owner's answer; a claim the store has dropped meanwhile changes nothing in it. */
    method Finish(id: nat, body: string)
      requires Valid() && id in items && !items[id].ready
      modifies this`items
      ensures Valid()
      ensures var x := old(items)[id];
              Entries() == if x.key in old(Entries()) && old(Entries())[x.key] == InFlight(id)
                then old(Entries())[x.key := Ready(x.hash, body)] else old(Entries())
    {
      Settles(items, byKey, order, id, body);
      var x := items[id];
      items := items[id := x.(body := body, ready := true)];
    }

    /** Releases a claim; one the store has dropped meanwhile does not touch a later claim of the key. */
    method Abandon(id: nat)
      requires Valid() && id in items && !items[id].ready
      modifies this`byKey, this`order
      ensures Valid()
      ensures var x := items[id];
              Entries() == if x.key in old(Entries()) && old(Entries())[x.key] == InFlight(id)
                then old(Entries()) - {x.key} else old(Entries())
    {
      var key := items[id].key;
      if key in byKey && byKey[key] == id { Remove(id); }
    }

    /** Writes the finished entries, oldest first. */
    method Snapshot(now: int) returns (recs: seq<Record>)
      requires Valid()
      modifies this`byKey, this`order
      ensures Valid() && Lists(recs, ReadyOnly(Entries())) && |recs| <= maxEntries
      ensures recs == ReadyRecords(items, order) && Suffix(order, old(order))
      ensures old(Fresh(now)) ==> Entries() == old(Entries())
    {
      Expire(now);
      recs := Collect(items, byKey, order);
    }

    method RestoreOne(r: Record, now: int, id: nat)
      requires Valid() && id !in items && r.key !in Entries()
      modifies this
      ensures Valid() && (forall x :: x in items ==> x in old(items) || x == id) && |order| <= |old(order)| + 1
      ensures |old(order)| < maxEntries ==>
                Entries() == if now - r.made < ttl then old(Entries())[r.key := Ready(r.hash, r.body)]
                  else old(Entries())
      ensures forall k :: k in Entries() ==>
                (k in old(Entries()) && Entries()[k] == old(Entries())[k])
                || (now - r.made < ttl && k == r.key && Entries()[k] == Ready(r.hash, r.body))
    {
      hide Indexed, EntriesOf;
      Keys(items, byKey, order);
      if now - r.made < ttl { Insert(id, Item(r.key, r.hash, r.made, r.body, true)); }
    }

    /** Fills the store with a snapshot's young records; with more of them than it has room for, the oldest go. */
    method Restore(recs: seq<Record>, now: int, ghost m: map<string, Entry>)
      requires maxEntries > 0 && Lists(recs, m)
      modifies this
      ensures Valid() && Among(recs, |recs|, now, ttl, Entries())
      ensures |recs| <= maxEntries ==> Filled(recs, |recs|, now, ttl, Entries())
      ensures |recs| <= maxEntries && (forall i :: 0 <= i < |recs| ==> now - recs[i].made < ttl) ==> Entries() == m
    {
      hide Indexed, EntriesOf, Filled, Among, Lists;
      Empty(recs, now, ttl);
      DistinctKeys(recs, m);
      items, byKey, order := map[], map[], [];
      for i := 0 to |recs|
        invariant Valid() && Among(recs, i, now, ttl, Entries()) && forall id :: id in items ==> id < i
        invariant |recs| <= maxEntries ==> |order| <= i && Filled(recs, i, now, ttl, Entries())
      {
        NotAmong(recs, i, now, ttl, Entries());
        if |recs| <= maxEntries { FillsNext(recs, i, now, ttl, Entries()); }
        ghost var before := Entries();
        RestoreOne(recs[i], now, i);
        AmongNext(recs, i, now, ttl, before, Entries());
      }
      if |recs| <= maxEntries { AllFilled(recs, now, ttl, Entries(), m); }
    }
  }

  /** What a request is told by what it finds. */
  function ReplyTo(found: Found): Option<Reply> {
    match found
    case Answer(body) => Some(Stored(body))
    case Reused => Some(KeyReused)
    case _ => None
  }

  /** What the protocol's claim does, in terms of what the claim finds. */
  lemma ClaimFinds(s: State, t: nat)
    requires t in s.requests && t in s.at && s.at[t].Arrived?
    ensures var r := s.requests[t];
            && (Enabled(s, Claim(t)) <==> (r.key in s.entries ==> !FoundIn(s.entries[r.key], r.hash).MustWait?))
            && (Enabled(s, Claim(t)) ==>
                  Apply(s, Claim(t)) ==
                  if r.key in s.entries
                  then s.(at := s.at[t := Answered(ReplyTo(FoundIn(s.entries[r.key], r.hash)).value)])
                  else s.(at := s.at[t := Claimed], entries := s.entries[r.key := InFlight(t)]))
  {}

  // ---- the store in the protocol --------------------------------------------------------------------

  /** With room and nothing to expire, a claim on the store is the protocol's claim: it has to wait exactly while that
  is not enabled, and otherwise leaves the protocol's answers and tells the request what the protocol does. */
  method ClaimStep(store: IdemStore, ghost s: State, t: nat, r: Request, now: int)
    returns (found: Found, ghost z: State)
    requires store.Valid() && store.Entries() == s.entries && store.Fresh(now) && |store.order| < store.maxEntries
    requires t !in store.items && t in s.requests && s.requests[t] == r && t in s.at && s.at[t].Arrived?
    modifies store
    ensures store.Valid() && store.Entries() == z.entries
    ensures found.MustWait? <==> !Enabled(s, Claim(t))
    ensures z == if Enabled(s, Claim(t)) then Apply(s, Claim(t)) else s
    ensures !found.MustWait? ==>
              t in z.at && z.at[t] == if found.Owned? then Claimed else Answered(ReplyTo(found).value)
    ensures found.Answer? ==> r.key in s.entries && s.entries[r.key] == Ready(r.hash, found.body)
    ensures found.Reused? <==> r.key in s.entries && s.entries[r.key].Ready? && s.entries[r.key].hash != r.hash
    ensures found.Owned? ==> t in store.items && store.items[t] == Item(r.key, r.hash, now, "", false)
  {
    ClaimFinds(s, t);
    hide IdemStore.Valid, IdemStore.Entries, IdemStore.Fresh, Enabled, Apply;
    ghost var kept;
    found, kept := store.Claim(r.key, r.hash, now, t);
    z := if Enabled(s, Claim(t)) then Apply(s, Claim(t)) else s;
  }

  /** The owner's answer is stored as the protocol stores it. */
  method SettleStep(store: IdemStore, ghost s: State, t: nat, r: Request)
    requires store.Valid() && store.Entries() == s.entries && Enabled(s, Settle(t)) && s.requests[t] == r && ClaimsOk(s)
    requires t in store.items && !store.items[t].ready && store.items[t].key == r.key && store.items[t].hash == r.hash
    modifies store
    ensures store.Valid() && store.Entries() == Apply(s, Settle(t)).entries
  {
    store.Finish(t, r.answer);
  }

  /** A rejected request releases its claim as the protocol does. */
  method RejectStep(store: IdemStore, ghost s: State, t: nat)
    requires store.Valid() && store.Entries() == s.entries && Enabled(s, Reject(t)) && ClaimsOk(s)
    requires t in store.items && !store.items[t].ready && store.items[t].key == s.requests[t].key
    modifies store
    ensures store.Valid() && store.Entries() == Apply(s, Reject(t)).entries
  {
    store.Abandon(t);
  }

  /** A snapshot's records are the answers the protocol copies. */
  method CopyStep(store: IdemStore, ghost s: State, now: int) returns (recs: seq<Record>)
    requires store.Valid() && store.Entries() == s.entries && store.Fresh(now) && Enabled(s, CopyEntries)
    modifies store
    ensures store.Valid() && store.Entries() == s.entries && Lists(recs, Apply(s, CopyEntries).saving.entries)
  {
    recs := store.Snapshot(now);
  }
}
