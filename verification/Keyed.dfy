/** The map from key to entry that serves the velocity features (internal/features/keyed.go). */
module Keyed {
  import opened Domain
  import opened Windows
  import opened Velocity
  import opened Exact

  class Keyed {
    var m: map<Key, ExactEntry>
    ghost var store: Store // what the entries stand for

    ghost predicate Valid()
      reads this, m.Values
    {
      && m.Keys == store.Keys
      && (forall k :: k in m ==> Serves(m[k], k) && m[k].Value() == store[k])
    }

    ghost predicate Serves(e: ExactEntry, k: Key)
      reads e
    {
      e.Valid() && e.started && e.key == k && e.tracks == TracksDistinct(k.entity)
    }

    constructor ()
      ensures Valid() && store == map[] && m == map[]
    {
      m, store := map[], map[];
    }

    /** The features of a key now; the state is not touched. */
    method Read(k: Key, now: int) returns (a: Aggregates)
      requires Valid()
      ensures a == Answer(Get(store, k), k.entity, now)
    {
      if k in m && now - m[k].last < IDLE_TTL {
        a := m[k].Read(now);
      } else {
        a := Unseen(k.entity);
      }
    }

    /** The entry to record into, and the features before recording; a forgotten key starts afresh. */
    method Entry(k: Key, now: int) returns (e: ExactEntry, a: Aggregates)
      requires Valid()
      modifies this`m
      ensures m == old(m)[k := e] && (e in old(m.Values) || fresh(e))
      ensures e.Valid() && e.key == k && e.tracks == TracksDistinct(k.entity)
      ensures a == Answer(Get(store, k), k.entity, now)
      ensures e.started == Live(Get(store, k), now).Some? && (e.started ==> e.Value() == store[k])
    {
      hide Consistent, View, Unseen;
      if k in m && now - m[k].last < IDLE_TTL {
        e := m[k];
        a := e.Read(now);
      } else {
        a := Unseen(k.entity);
        e := new ExactEntry(k, TracksDistinct(k.entity));
        m := m[k := e];
      }
    }

    /** Reads a key as of an event's time and then records the event. */
    method ReadAdd(k: Key, ev: Event) returns (a: Aggregates)
      requires Valid()
      modifies this, m.Values
      ensures Valid() && fresh(m.Values - old(m.Values))
      ensures a == Answer(Get(old(store), k), k.entity, ev.time)
      ensures store == old(store)[k := Recorded(Get(old(store), k), ev)]
    {
      hide Consistent, Answer, Record, Start;
      var e;
      e, a := Entry(k, ev.time);
      store := store[k := Recorded(Get(store, k), ev)];
      e.Add(ev);
    }

    /** The entries that are not idle at now, and how many are. */
    method NotIdle(now: int) returns (kept: map<Key, ExactEntry>, n: nat)
      requires Valid()
      ensures kept.Keys == Evicted(store, now).Keys && n + |kept| == |m|
      ensures forall k :: k in kept ==> k in m && kept[k] == m[k]
    {
      hide Serves, ExactEntry.Valid;
      var keys := m.Keys;
      kept, n := m, 0;
      while keys != {}
        invariant keys <= m.Keys && kept.Keys <= m.Keys && n + |kept| == |m|
        invariant forall k :: k in kept ==> kept[k] == m[k]
        invariant forall k :: k in m ==> (k in kept <==> k in keys || now - store[k].last < IDLE_TTL)
        decreases keys
      {
        var k :| k in keys;
        if now - m[k].last >= IDLE_TTL {
          DropsOne(kept, k);
          kept, n := kept - {k}, n + 1;
        }
        keys := keys - {k};
      }
      assert kept.Keys == Evicted(store, now).Keys;
    }

    /** Frees the keys idle at now. */
    method EvictIdle(now: int) returns (n: nat)
      requires Valid()
      modifies this
      ensures Valid() && m.Values <= old(m.Values)
      ensures store == Evicted(old(store), now) && n == |old(m)| - |m|
    {
      hide Serves;
      m, n := NotIdle(now);
      store := Evicted(store, now);
    }

    /** Writes every entry. */
    method Snapshot() returns (images: map<Key, Image>)
      requires Valid()
      ensures ImagesFit(images, store)
    {
      hide ExactEntry.Valid, Encodes;
      images := map[];
      var keys := m.Keys;
      while keys != {}
        invariant keys <= m.Keys && images.Keys == m.Keys - keys
        invariant forall k :: k in images ==> Encodes(images[k], store[k], TracksDistinct(k.entity))
        decreases keys
      {
        var k :| k in keys;
        assert Serves(m[k], k);
        var img := m[k].Encode();
        images, keys := images[k := img], keys - {k};
      }
    }

    /** Replaces the map by new entries read from images; an error leaves it as it was. */
    method Restore(images: map<Key, Image>, ghost st: Store) returns (ok: bool)
      requires Valid()
      modifies this
      ensures ok ==> fresh(m.Values)
      ensures ImagesFit(images, st) ==> ok && Valid() && store == st
      ensures !ok ==> Valid() && m == old(m) && store == old(store)
    {
      hide ExactEntry.Valid, Encodes, StartsFit;
      var restored: map<Key, ExactEntry> := map[];
      var keys := images.Keys;
      while keys != {}
        invariant m == old(m) && store == old(store) && Valid()
        invariant keys <= images.Keys && restored.Keys == images.Keys - keys
        invariant forall k :: k in restored ==> fresh(restored[k])
        invariant ImagesFit(images, st) ==> forall k :: k in restored ==>
                  Serves(restored[k], k) && restored[k].Value() == st[k]
        decreases keys
      {
        var k :| k in keys;
        var e := new ExactEntry(k, TracksDistinct(k.entity));
        ok := e.Decode(images[k], if k in st then st[k] else History(0, 0, []));
        if !ok { return; }
        restored, keys := restored[k := e], keys - {k};
      }
      m, store, ok := restored, st, true;
    }
  }

  /** The images are of a store's histories. */
  ghost predicate ImagesFit(images: map<Key, Image>, st: Store) {
    images.Keys == st.Keys && forall k :: k in images ==> Encodes(images[k], st[k], TracksDistinct(k.entity))
  }

  lemma DropsOne(m: map<Key, ExactEntry>, k: Key)
    requires k in m
    ensures |m - {k}| == |m| - 1
  {
    assert m.Keys == (m - {k}).Keys + {k};
  }
}
