/** The first- and last-seen table of the sketch: one set of a set-associative cache
(internal/features/sketch.go). Keys' hashes are told apart by their tags. */
module Recency {
  import opened Domain
  import opened Windows
  import opened Velocity

  const WAYS := 8

  /** What one way of a set remembers of a key; a slot with tag 0 remembers nothing. */
  datatype Slot = Slot(tag: nat, first: int, last: int)

  const EMPTY := Slot(0, 0, 0)

  /** The reference: when a key was first and last seen since it was last forgotten. */
  datatype Seen = Seen(first: int, last: int)

  function SeenAgain(s: Option<Seen>, t: int): Seen {
    if s.Some? && t - s.value.last < IDLE_TTL then Seen(s.value.first, t) else Seen(t, t)
  }

  function Of(exact: map<nat, Seen>, tag: nat): Option<Seen> { if tag in exact then Some(exact[tag]) else None }

  /** Whether the exact store still knows the key at now. */
  function LiveSeen(exact: map<nat, Seen>, tag: nat, now: int): Option<Seen> {
    if tag in exact && now - exact[tag].last < IDLE_TTL then Some(exact[tag]) else None
  }

  ghost predicate Unique(slots: seq<Slot>) {
    forall i, j :: 0 <= i < |slots| && 0 <= j < |slots| && slots[i].tag != 0 && slots[i].tag == slots[j].tag ==> i == j
  }

  /** What a slot says of its key is true, but for a first time that may be too late. */
  ghost predicate Honest(slots: seq<Slot>, exact: map<nat, Seen>) {
    forall i :: 0 <= i < |slots| && slots[i].tag != 0 ==>
      slots[i].tag in exact && exact[slots[i].tag].last == slots[i].last && exact[slots[i].tag].first <= slots[i].first
  }

  ghost predicate InOrder(exact: map<nat, Seen>, latest: int) {
    forall tag :: tag in exact ==> tag != 0 && exact[tag].first <= exact[tag].last <= latest
  }

  predicate HasTag(slots: seq<Slot>, tag: nat) { exists i :: 0 <= i < |slots| && slots[i].tag == tag }

  /** The slots say everything, and exactly. */
  ghost predicate Complete(slots: seq<Slot>, exact: map<nat, Seen>) {
    && (forall tag :: tag in exact ==> HasTag(slots, tag))
    && (forall i :: 0 <= i < |slots| && slots[i].tag != 0 ==>
          slots[i].tag in exact && exact[slots[i].tag].first == slots[i].first)
  }

  /** An event of a key in slot at, or new to an empty slot or over another key. */
  lemma Touches(slots: seq<Slot>, exact: map<nat, Seen>, latest: int, at: nat, tag: nat, t: int, s: Slot)
    requires Unique(slots) && Honest(slots, exact) && InOrder(exact, latest) && latest <= t && tag != 0 && at < |slots|
    requires slots[at].tag != tag ==> !HasTag(slots, tag)
    requires s == Slot(tag, if slots[at].tag == tag && t - slots[at].last < IDLE_TTL then slots[at].first else t, t)
    ensures var after, more := slots[at := s], exact[tag := SeenAgain(Of(exact, tag), t)];
            && Unique(after) && Honest(after, more) && InOrder(more, t)
            && (Complete(slots, exact) && (slots[at].tag == 0 || slots[at].tag == tag) ==> Complete(after, more))
  {
    var after, more := slots[at := s], exact[tag := SeenAgain(Of(exact, tag), t)];
    assert after[at].tag == tag;
    forall i | 0 <= i < |after| && after[i].tag != 0 && i != at ensures after[i].tag != tag {
      if slots[at].tag == tag { assert i != at; } else { assert HasTag(slots, slots[i].tag); }
    }
    if Complete(slots, exact) && (slots[at].tag == 0 || slots[at].tag == tag) {
      forall k | k in more ensures HasTag(after, k) {
        if k != tag {
          assert HasTag(slots, k);
          var i :| 0 <= i < |slots| && slots[i].tag == k;
          assert after[i].tag == k;
        }
      }
    }
  }

  class RecencySet {
    var slots: seq<Slot>
    ghost var exact: map<nat, Seen> // what the exact store holds of the keys of this set
    ghost var latest: int           // times never go back
    ghost var dropped: bool         // a full set has dropped a key

    ghost predicate Valid()
      reads this
    {
      && |slots| == WAYS && Unique(slots) && Honest(slots, exact) && InOrder(exact, latest)
      && (!dropped ==> Complete(slots, exact))
    }

    constructor (ghost from: int)
      ensures Valid() && exact == map[] && latest == from && !dropped
    {
      slots := seq(WAYS, i => EMPTY);
      exact, latest, dropped := map[], from, false;
    }

    /** The live slot of a key: a key reported seen is seen, last at exactly that time and first no later
    than reported; and until a full set has dropped a key the answer is the exact store's. */
    method Lookup(tag: nat, now: int) returns (s: Option<Seen>)
      requires Valid() && tag != 0
      ensures s.Some? ==> LiveSeen(exact, tag, now).Some?
                          && s.value.last == LiveSeen(exact, tag, now).value.last
                          && s.value.first >= LiveSeen(exact, tag, now).value.first
      ensures !dropped ==> s == LiveSeen(exact, tag, now)
    {
      for i := 0 to WAYS
        invariant forall k :: 0 <= k < i ==> slots[k].tag != tag
      {
        if slots[i].tag == tag {
          return if now - slots[i].last < IDLE_TTL then Some(Seen(slots[i].first, slots[i].last)) else None;
        }
      }
      return None;
    }

    /** The slot an event of this tag goes to: its own, else the first empty one, else the one seen least
    recently. */
    method Place(tag: nat) returns (at: nat, found: bool)
      requires Valid() && tag != 0
      ensures at < WAYS && found == (slots[at].tag == tag)
      ensures !found ==> !HasTag(slots, tag)
      ensures !found ==> (forall k :: 0 <= k < WAYS ==> slots[k].tag != tag)
                         && (slots[at].tag != 0 ==> forall k :: 0 <= k < WAYS ==>
                               slots[k].tag != 0 && slots[at].last <= slots[k].last)
    {
      var victim := -1;
      for i := 0 to WAYS
        invariant victim == -1 <==> i == 0
        invariant victim < i && -1 <= victim
        invariant forall k :: 0 <= k < i ==> slots[k].tag != tag
        invariant i > 0 && slots[victim].tag != 0 ==> forall k :: 0 <= k < i ==>
                  slots[k].tag != 0 && slots[victim].last <= slots[k].last
      {
        if slots[i].tag == tag { return i, true; }
        if slots[i].tag == 0 {
          if victim < 0 || slots[victim].tag != 0 { victim := i; }
        } else if victim < 0 || (slots[victim].tag != 0 && slots[i].last < slots[victim].last) {
          victim := i;
        }
      }
      return victim, false;
    }

    /** Records an event at t. */
    method Touch(tag: nat, t: int)
      requires Valid() && tag != 0 && latest <= t
      modifies this
      ensures Valid() && latest == t && exact == old(exact)[tag := SeenAgain(Of(old(exact), tag), t)]
      ensures dropped ==> old(dropped) || forall k :: 0 <= k < WAYS ==>
                old(slots)[k].tag != 0 && old(slots)[k].tag != tag
    {
      hide Unique, Honest, InOrder, Complete;
      var at, found := Place(tag);
      var s := slots[at];
      var next := Slot(tag, if found && t - s.last < IDLE_TTL then s.first else t, t);
      Touches(slots, exact, latest, at, tag, t, next);
      dropped := dropped || (!found && s.tag != 0);
      exact := exact[tag := SeenAgain(Of(exact, tag), t)];
      latest := t;
      slots := slots[at := next];
    }
  }

  function SeenOf(h: Option<History>): Option<Seen>
  {
    if h.None? then None else Some(Seen(h.value.first, h.value.last))
  }

  /** The exact store's history of a key has these times, for events that come in time order. */
  lemma SeenIsHistory(h: Option<History>, ev: Event)
    requires h.Some? ==> h.value.last <= ev.time
    ensures SeenOf(Some(Recorded(h, ev))) == Some(SeenAgain(SeenOf(h), ev.time))
  {}
}
